# Discord points ledger, modelled in Dafny

This project models the points bot in `discord-points/points.py`. The bot keeps one
SQLite table `points(user_id INTEGER PRIMARY KEY, points INTEGER)` and exposes four
slash commands over it.

- `Ledger` (ledger.dfy). The table is a `map<int, int>` from user id to balance. The
  primary key means one row per user, and the map keeps that by construction. Class
  `DatabaseManager` holds the table and a flag saying whether `CREATE TABLE` has run
  in the database file. Its methods follow the source's SQL statements step by step:
  - `GetPoints` is a SELECT, plus an INSERT of 0 when the user has no row.
  - `UpdatePoints` is a read-modify-write.
  - `SetPoints` makes sure the row exists, then runs an UPDATE.
  - `SqlUpdate` is `UPDATE ... WHERE user_id = ?`. It does nothing when there is no row.

  Pure functions give what each operation means for the table: `Touch`, `Add`, `Put`
  and `Revoke`. `TopRows` is `ORDER BY points DESC LIMIT ?`. Its contract, `IsTopN`,
  leaves the order of tied rows open. A negative LIMIT means no bound, as in SQLite.
- `Commands` (commands.dfy) holds the handlers:
  - `mypoints` and `addpoints` call the store directly.
  - `removepoints` stores `max(0, current - points)`. This is the only place a zero
    floor is applied.
  - `leaderboard` renders the top 10 rows as 1-indexed lines. A failed name lookup
    renders as "Unknown User". With no rows it replies with a fixed message.

  The name lookup (`bot.fetch_user`) is the parameter `lookup: int -> Option<string>`.
  The ids in the rows are distinct, so one lookup result per id loses nothing.
- `Decimal` (decimal.dfy) models Python's `str(int)`, which the f-strings use for ranks
  and balances. `ParseInt` reads that text back, so numbers round-trip.
- `Wrappers` (wrappers.dfy) defines `Option`.

Every operation runs to completion before the next one starts.

`update_points` (discord-points/points.py:36-42), and so `addpoints`, accepts any delta
and applies no floor; the only floor is the `max(0, current - points)` of `removepoints`
(discord-points/points.py:96). So a negative balance is reachable:
`Ledger.AddCanGoNegative` shows a balance of 3 going to -7. This also limits the claim
"removing a non-negative amount never raises the balance" to non-negative balances.
`Ledger.RevokeRaisesNegative` shows that a balance of -5 becomes 0 when 2 points are
removed.

## Model

| member | source | states |
|---|---|---|
| `Ledger.DatabaseManager.constructor` | discord-points/points.py:17-18 | The object stands for the database file named by `db_name`; nothing is opened, each operation connects on its own. `stored` is the points table already in that file: the table exists exactly when there is one, and then it holds that file's rows. |
| `Ledger.DatabaseManager.Initialize` | discord-points/points.py:20-23 | `CREATE TABLE IF NOT EXISTS`: afterwards the table exists. A table that was absent starts empty, and an existing one keeps its contents, so a second call changes nothing. |
| `Ledger.DatabaseManager.SqlUpdate` | discord-points/points.py:40 | `UPDATE ... WHERE user_id = u` overwrites u's row if there is one and changes nothing otherwise. |
| `Ledger.DatabaseManager.GetPoints` | discord-points/points.py:25-34 | Returns the stored balance, or 0 for a user with no row. The new table is `Touch` of the old one: a zero row is inserted only when missing. |
| `Ledger.DatabaseManager.UpdatePoints` | discord-points/points.py:36-42 | Returns the old balance (as get_points reads it) plus the delta. The new table is `Add` of the old one. |
| `Ledger.DatabaseManager.SetPoints` | discord-points/points.py:44-49 | The new table is `Put` of the old one: the row exists and holds the value, even if the user had no row before. |
| `Ledger.DatabaseManager.GetLeaderboard` | discord-points/points.py:51-54 | The rows returned satisfy `IsTopN` for the current table and the limit. |
| `Ledger.Balance` | discord-points/points.py:27-34 | What get_points returns: the stored balance when the user has a row, 0 when it has none. |
| `Ledger.Touch` | discord-points/points.py:25-34 | After get_points, u has a row holding its old balance (0 if it was new). Every other user's row, and every other user's absence, is unchanged. |
| `Ledger.Add` | discord-points/points.py:36-42 | After update_points(u, d), u's row holds the old balance plus d, with no lower bound. All other rows are unchanged. |
| `Ledger.Put` | discord-points/points.py:44-49 | After set_points(u, v), u's row holds v. All other rows are unchanged. |
| `Ledger.RevokedBalance` | discord-points/points.py:96 | `max(0, current - points)`: the result is at least 0 and at least `current - points`, and it equals one of the two. |
| `Ledger.Revoke` | discord-points/points.py:95-97 | After removepoints, u's row holds the clamped balance. All other rows are unchanged. |
| `Ledger.TouchIdempotent` | discord-points/points.py:25-34 | A second get_points returns the same value and leaves the table as the first call left it. |
| `Ledger.TouchKeepsExisting` | discord-points/points.py:27-30 | get_points on a user that already has a row does not change the table. |
| `Ledger.AddCompose` | discord-points/points.py:36-42 | update_points by a and then by b gives the same table as one update by a + b. |
| `Ledger.AddFiveThenMinusThree` | discord-points/points.py:36-42 | For a new user, adding 5 and then -3 leaves 2. |
| `Ledger.AddCanGoNegative` | discord-points/points.py:83 | A grant with a negative amount can turn a ledger with no negative balance into one with a negative balance. |
| `Ledger.RevokeKeepsFloor` | discord-points/points.py:95-97 | After removepoints, the user's balance is at least 0. If no balance was negative before, none is negative after. |
| `Ledger.RevokeNeverRaises` | discord-points/points.py:96 | Removing a non-negative amount from a non-negative balance never increases the balance. |
| `Ledger.RevokeRaisesNegative` | discord-points/points.py:96 | Removing 2 from a balance of -5 stores 0, which is higher than -5. |
| `Ledger.RevokeExamples` | discord-points/points.py:96 | A balance of 3 minus 10 gives 0. A balance of 5 minus 2 gives 3. |
| `Ledger.TouchAndGrantKeepFloor` | discord-points/points.py:25-42 | get_points, and update_points with a non-negative delta, keep every balance non-negative if all were. |
| `Ledger.IsTopN` | discord-points/points.py:53 | What `ORDER BY points DESC LIMIT limit` may return. Any such answer lists only table users, has at most `limit` rows when the limit is not negative, and its first row holds the highest balance in the table. |
| `Ledger.FirstExists` | discord-points/points.py:53 | Every non-empty table has a row that ranks first: the highest points, and the smallest id among ties. |
| `Ledger.SortedRows` | discord-points/points.py:53 | `ORDER BY points DESC` with no limit returns each table row exactly once, with the table's values, in non-increasing points. |
| `Ledger.TopRows` | discord-points/points.py:51-54 | `LIMIT limit` on top of that returns min(limit, table size) rows, or all rows when the limit is negative. The rows are distinct, non-increasing and each is a table row. All rows come back when they fit. Any row left out has no more points than every row returned. |
| `Decimal.NatToString` | discord-points/points.py:112 | Digits only, at least one digit, and no leading zero unless the number is 0. |
| `Decimal.IntToString` | discord-points/points.py:112 | Non-empty, and starts with '-' exactly when the number is negative. |
| `Decimal.NatToStringValue` | discord-points/points.py:112 | The digits that are written denote the number. |
| `Decimal.IntToStringRoundTrip` | discord-points/points.py:112 | Parsing the rendered integer gives back the integer. |
| `Decimal.IntToStringInjective` | discord-points/points.py:112 | Two integers render the same exactly when they are equal. |
| `Commands.DisplayName` | discord-points/points.py:107-111 | The fetched user's name when the lookup succeeded, "Unknown User" when it failed. |
| `Commands.BoardLine` | discord-points/points.py:112 | The line is the rank, the name and the points with exactly 13 characters of fixed text around them. |
| `Commands.BoardLineReadBack` | discord-points/points.py:112 | Whatever the name, the rank parses back from the front of the line, the name follows ". ", and the points parse back from just before " points\n". |
| `Commands.BoardLines` | discord-points/points.py:105-112 | The lines the loop appends are empty exactly when there are no rows. |
| `Commands.LeaderboardMessage` | discord-points/points.py:103-115 | The reply is "No points have been recorded yet." exactly when the query returned no rows (both directions of the `if leaderboard_data:` split). |
| `Commands.BoardLinesAppend` | discord-points/points.py:105-112 | The lines for two row sequences placed one after the other are the lines of the first, then the lines of the second, with numbering carried on. |
| `Commands.BoardLinesSingle` | discord-points/points.py:112 | One row renders as exactly its `"{idx}. {name} - {points} points\n"` line. |
| `Commands.BoardLinesSnoc` | discord-points/points.py:106-112 | Rendering one more row appends that row's line, numbered i + 1. |
| `Commands.BoardLineAt` | discord-points/points.py:104-112 | In a non-empty leaderboard, row i appears after the header and the earlier rows' lines, as line i + 1 with its fetched name and points. The name is "Unknown User" when the lookup failed. |
| `Commands.EmptyBoardIffEmptyTable` | discord-points/points.py:103-115 | The leaderboard gives that fixed reply exactly when the table has no rows. |
| `Commands.MyPoints` | discord-points/points.py:75-78 | mypoints returns the caller's balance and creates a zero row for a new caller. |
| `Commands.AddPoints` | discord-points/points.py:80-84 | addpoints leaves the table as `Add` with the given amount, with no floor. |
| `Commands.RemovePoints` | discord-points/points.py:86-99 | removepoints returns and stores `max(0, current - points)`, which is never negative. The new table is `Revoke` of the old one. |
| `Commands.LeaderboardCommand` | discord-points/points.py:101-115 | The reply is the rendering of the store's top rows under the default limit of 10 (`limit=10`, discord-points/points.py:51). |
| `Commands.RenderLeaderboard` | discord-points/points.py:104-115 | The loop's `+=` lines build exactly the header followed by one line per row, in row order, numbered from 1. With no rows the reply is the fixed message. |
| `Commands.OnlyRowTopRows` | discord-points/points.py:51-54 | A table whose only row is A with 0 points gives exactly that row as the leaderboard. |
| `Commands.SingleZeroRowMessage` | discord-points/points.py:104-113 | One row with 0 points renders as `**Leaderboard:**\n1. <name> - 0 points\n`. |
| `Commands.GrantRevokeScenario` | discord-points/points.py:80-115 | For a new user A: the balance starts at 0. Granting 50 gives 50. Then revoking 70 stores 0, not -20. With A as the only row, the leaderboard is `**Leaderboard:**\n1. <name> - 0 points\n`. |

## Left out

- Discord gateway, bot construction, intents, presence and command registration (discord-points/points.py:57-72) are host-framework plumbing.
- The administrator checks and `admin_error` replies (discord-points/points.py:81, 87, 117-123) are enforced by discord.py decorators and error dispatch. The model assumes a mutating handler only runs once that check has passed.
- `bot.fetch_user` is a network call. It becomes the `lookup` parameter, and a failed call becomes `None`.
- SQLite/aiosqlite connections, commits, durability and async suspension are not modelled. Storage errors are not modelled either. The operations run one after another. The source gives no atomicity across the separate connections of `update_points`, `set_points` and `removepoints`, and the model claims none.
- Ledger.DatabaseManager.GetPoints: the table is required to exist. The source calls `initialize` in `setup_hook` before any command can run. Without the table SQLite raises an error; for `addpoints` and `removepoints` `admin_error` replies "An error occurred: {error}". That error path and its reply are not modelled.
- Balances are unbounded integers. SQLite stores 64-bit integers, and binding a larger Python int raises an error. That error path is not modelled.
- Ledger.TopRows: ties come back in ascending user id, which is the table's storage order. SQLite does not promise any tie order, so `IsTopN` and every property proved from it leave the tie order open.
- A stored NULL balance cannot arise: every insert writes 0 and every update writes an int. So the `if result:` test in `get_points` is modelled as "the row exists".
- Token loading via dotenv, the startup check and logging setup (discord-points/points.py:9, 12-13, 125-130) are environment and I/O.
- The reply texts of `mypoints`, `addpoints` and `removepoints` (discord-points/points.py:78, 84, 99) only interpolate Discord mention strings. The handlers return the numbers those replies show.
- A negative amount passed to `removepoints` is not rejected, by the source or the model: the balance becomes `max(0, current - points)` as for any other amount.
