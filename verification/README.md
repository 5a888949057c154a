# Omnieconomy ledger and registry — a Dafny model

This project models the ledger and registry logic of the omnieconomy
backend's mod routes: a virtual-currency service for Minecraft servers,
where servers are grouped, and the players of all servers in one group share
one account per player. Each route handler runs as one database transaction
that reads rows, validates them, and then either commits a mutation or rolls
back. The model makes each handler a pure function from the state to a
`Step(out, post)`. `out` is the handler's success payload or a typed
`Failure`. `post` is the committed state, and it equals the input state
whenever `out` is a failure (the ROLLBACK).

The state (`Store.State`) is one immutable record of the tables:
- `groups`: `server_groups`, group id to optional name;
- `servers`: name, API-key hash and nullable group;
- `players`: keyed by (server id, Minecraft UUID), holding username and nullable Discord id;
- `accounts`: keyed by (group id, holder UUID), the grouped ledger;
- `dailyClaims`: one `daily_rewards` row per account, keyed by the account's (group id, holder UUID);
- `userFunds`: the older flat `user_funds` ledger that the pay and balance routes still use.

The flat and the grouped ledgers are kept apart, exactly as the SQL keeps
them. `Store.Valid` is the invariant every committed state keeps:
- no negative balance in either ledger;
- every group, server and account reference points at an existing row.

Modelling conventions:
- Request fields are `Option`s. `None` stands for `undefined`, `null` and `NaN`.
- `Store.Truthy` and `Store.TruthyId` give JavaScript truthiness: an empty string and the number 0 count as missing.
- `Wrappers.Coalesce` is `??`.
- Time is Europe/Berlin wall-clock time in whole seconds, with fixed 86400-second days.
- Amounts and balances are exact integers, so the handlers' `Math.floor(parseFloat(…))` is the identity. This matches JavaScript only up to 2^53 (see Left out).
- Foreign code is passed in as parameters:
  - argon2 hashing and verification are the function parameters `hash` and `verify`;
  - the random API key is the parameter `apiKey`;
  - the ids handed out by the table sequences are the `fresh…` parameters, each required to be unused.
- The read-only routes (balance, top, `getUserBalance`) return no state, so they cannot change it.

Three behaviours of the code worth knowing:
- Pay works on `user_funds` and never creates the recipient: a missing recipient row fails and rolls back the sender's debit.
- Withdraw creates a missing account with balance 0 and never fails "account not found". On a failed withdrawal that row is rolled back; on a successful one it stays.
- Before 06:30, the daily reset window starts exactly one day before now (see Findings).

## Model

| member | source | states |
|---|---|---|
| DepositRoute.Deposit | server/src/app/routes/mod/deposit.post.ts:22-64 | Each failure (invalid input, non-positive amount, server unknown or without a group) happens exactly under its guard and changes nothing. On success the account (group of the server, holder) exists and holds the old balance, or 0 if it was absent, plus the amount. The reported new balance is that stored balance. No other account or table changes. |
| DepositRoute.DepositPreservesValid | server/src/app/routes/mod/deposit.post.ts:31-58 | A deposit keeps every balance non-negative and every account inside an existing group. |
| WithdrawRoute.Withdraw | server/src/app/routes/mod/withdraw.post.ts:27-100 | Invalid input (missing server id or uuid, count absent or ≤ 0) fails with no change. So does a server unknown or without a group. When the balance is below count × denomination (denomination defaults to 1000) the result is insufficient funds, the ensured row included nothing changes. On success the account holds old − amount, `withdrawn` = count × denomination, and the reported balance is the stored one. Other accounts are untouched. |
| WithdrawRoute.WithdrawPreservesValid | server/src/app/routes/mod/withdraw.post.ts:75-89 | A committed withdrawal leaves a non-negative balance whatever the sign of the denomination, and keeps the state valid. |
| WithdrawRoute.NegativeDenominationCredits | server/src/app/routes/mod/withdraw.post.ts:37-89 | A negative denomination passes every check and raises the balance by count × −denomination. |
| WithdrawRoute.WithdrawChecked | server/src/app/routes/mod/withdraw.post.ts:37-89 | With a positive denomination required, a non-positive one is invalid input, a positive one behaves as the handler, and every committed withdrawal takes a positive amount out of the account. |
| PayRoute.Pay | server/src/app/routes/mod/pay.post.ts:25-85 | Each failure holds exactly under its guard and changes nothing: invalid input, non-positive amount, self-pay, sender missing, sender balance below the amount, and recipient missing (the debit is rolled back). On success the sender loses exactly the amount and the recipient gains exactly the amount. Every other `user_funds` entry and every other table is unchanged. The reported sender balance is the stored one and is ≥ 0. |
| PayRoute.PayAsWritten | server/src/app/routes/mod/pay.post.ts:39-50 | With the pre-flight as written nothing is ever changed; a request past the input checks gets a 500 or "sender not found" before any transaction. |
| PayRoute.PayAsWrittenNeverCommits | server/src/app/routes/mod/pay.post.ts:39-50 | The handler as written refuses every request, and in particular every payment the transaction would commit. |
| PayRoute.PayRefusedAsWritten | server/src/app/routes/mod/pay.post.ts:39-85 | A payment between two existing rows that the sender can afford commits in the transaction, yet the handler as written refuses it. |
| PayRoute.PayPreservesValid | server/src/app/routes/mod/pay.post.ts:63-76 | A payment keeps every `user_funds` balance non-negative. |
| PayRoute.PayConservesTotal | server/src/app/routes/mod/pay.post.ts:68-76 | A payment, committed or not, leaves the sum of all `user_funds` balances unchanged. |
| PayRoute.RunPaysConserves | server/src/app/routes/mod/pay.post.ts:52-87 | Any sequence of payments, each serialised by its row locks, preserves the total and keeps every balance non-negative. |
| BalanceRoute.Balance | server/src/app/routes/mod/balance.get.ts:13-25 | A missing uuid is invalid input. A uuid with no `user_funds` row is "player not found". Otherwise the result is that row's balance. No state is returned, so nothing changes. |
| CurrencyRepo.GetUserBalance | server/src/features/currency/repo.ts:11-29 | The result is present exactly when the join finds an account of the uuid in the group of the server. It is that account's balance. An unknown server, or one with a null group, gives none. |
| DailyRoute.StartOfDay | server/src/app/routes/mod/daily.post.ts:28-33 | Midnight of the day containing t: a multiple of a day, at most t, and less than a day before it. |
| DailyRoute.LastReset | server/src/app/routes/mod/daily.post.ts:27-36 | The handler's reset is within the last day (now − 1 day ≤ r ≤ now) and is either a 06:30 instant or exactly now − 1 day. |
| DailyRoute.LastBoundary | server/src/app/routes/mod/daily.post.ts:27-36 | The corrected reset is a 06:30 instant at most now and less than a day before it. |
| DailyRoute.LastBoundaryIsLatest | server/src/app/routes/mod/daily.post.ts:27-36 | No 06:30 instant at or before now is later than the corrected reset. |
| DailyRoute.LastResetVersusBoundary | server/src/app/routes/mod/daily.post.ts:27-36 | The handler's reset is never later than the corrected one. The two agree exactly when now is at or after today's 06:30. |
| DailyRoute.AccountKey | server/src/app/routes/mod/daily.post.ts:57-73 | Present exactly when the `servers JOIN accounts` query finds the holder's account in the server's group, and it is that account. |
| DailyRoute.ClaimWithReset | server/src/app/routes/mod/daily.post.ts:19-124 | Each failure holds exactly under its guard and changes nothing: missing ids; not linked (no player row or an empty Discord id); no account; a claim at or after the window start. The refusal names window start + 1 day. On success the balance rises by exactly 50, the account's single claim row becomes now, nothing else changes, and the reported balance is the stored one. |
| DailyRoute.Claim | server/src/app/routes/mod/daily.post.ts:25-98 | The handler with its own reset. A refusal names a next reset between now and now + 1 day, and a failure changes nothing. |
| DailyRoute.ClaimCorrected | server/src/app/routes/mod/daily.post.ts:84-98 | With the corrected reset, a refusal names a next reset that is a 06:30 strictly after now and at most a day away. |
| DailyRoute.ClaimPreservesValid | server/src/app/routes/mod/daily.post.ts:100-115 | A claim keeps balances non-negative and claim rows attached to existing accounts. |
| DailyRoute.ClaimTwiceSameInstant | server/src/app/routes/mod/daily.post.ts:84-115 | Right after a committed claim, a second claim with the same now is refused as already claimed and changes nothing. |
| DailyRoute.ClaimOncePerWindow | server/src/app/routes/mod/daily.post.ts:84-98 | As written: after a claim at t1, every claim before the next 06:30 is refused. |
| DailyRoute.WindowContainsEarlierClaim | server/src/app/routes/mod/daily.post.ts:27-36 | For t1 ≤ t2 in the same 06:30-to-06:30 window, both window starts computed for t2 are at or before t1. |
| DailyRoute.ClaimCorrectedOncePerWindow | server/src/app/routes/mod/daily.post.ts:84-98 | The corrected claim also credits at most once per window. |
| DailyRoute.ClaimRefusedAfterReset | server/src/app/routes/mod/daily.post.ts:34 | Before 06:30, a claim made less than a day ago but before the latest 06:30 still blocks the handler, while the corrected claim succeeds. |
| DailyRoute.ClaimCorrectedAfterReset | server/src/app/routes/mod/daily.post.ts:84-98 | Once a 06:30 has passed since the last claim, a linked player with an account can claim again under the corrected reset. |
| TopRoute.MaxRow | server/src/app/routes/mod/top.get.ts:32 | Returns a row of the set whose balance no other row exceeds. |
| TopRoute.SelectTop | server/src/app/routes/mod/top.get.ts:32-33 | The result is a valid `ORDER BY balance DESC LIMIT n`: min(n, row count) distinct rows of the input, in non-increasing balance order. No row left out has a larger balance than a kept one. |
| TopRoute.Entries | server/src/app/routes/mod/top.get.ts:38-41 | One entry per selected row, in order, with its username and balance. |
| TopRoute.Top | server/src/app/routes/mod/top.get.ts:16-43 | A missing server id is the only failure. Otherwise the answer has at most 10 entries in non-increasing balance order, and is the projection of a valid top-10 selection of the joined rows. |
| TopRoute.JoinedRowsSound | server/src/app/routes/mod/top.get.ts:24-31 | Every joined row is a player of this server whose account, in the server's group under the same uuid, holds the row's balance, and the row's name is the player's username. |
| LoginRoute.Login | server/src/app/routes/mod/login.post.ts:19-92 | Each failure holds exactly under its guard and changes nothing: missing uuid or name; missing or zero server id or empty key; unknown server; key rejected by the verifier. On success a server without a group gets the fresh group, recorded on the server. The player row exists with the new username and its Discord link kept. The account exists with its balance untouched, or 0 when new. Nothing else changes. The token claims carry uuid, name, server and group. |
| LoginRoute.AssignGroup | server/src/app/routes/mod/login.post.ts:55-66 | Afterwards the server has a group. A server that had one is left as it was; otherwise a new unnamed group is created and only that server's group changes to it. |
| LoginRoute.UpsertPlayer | server/src/app/routes/mod/login.post.ts:68-77 | The player row for (server, uuid) exists and carries the new name, keeps any Discord link it had, and no other player row changes. |
| LoginRoute.LoginPreservesValid | server/src/app/routes/mod/login.post.ts:55-89 | A login keeps the state valid, including the new group's references. |
| LoginRoute.LoginIdempotent | server/src/app/routes/mod/login.post.ts:55-89 | Repeating the same login gives the same answer and changes no modelled column further (`updated_at` is not modelled). |
| ServerRegisterRoute.NormalizeName | server/src/app/routes/mod/server-register.post.ts:26-27 | A present name is the trimmed input and is non-empty. An absent or all-white-space name gives none. |
| ServerRegisterRoute.NormalizeNameIdempotent | server/src/app/routes/mod/server-register.post.ts:26-27 | A normalised name has no white space at either end, and normalising it again changes nothing. |
| ServerRegisterRoute.Register | server/src/app/routes/mod/server-register.post.ts:26-69 | With a secret configured and a different header the result is forbidden. A name already used by a server is a conflict. Both failures change nothing. Success adds exactly a new group with the name and a new server with the name, the key's hash and that group, and returns both ids and the key. |
| ServerRegisterRoute.RegisterPreservesValid | server/src/app/routes/mod/server-register.post.ts:46-62 | A registration keeps the state valid. |
| ServerRegisterRoute.RegisterThenLogin | server/src/app/routes/mod/server-register.post.ts:41-63 | Logging in with the key just issued (when the verifier accepts its own hash) succeeds in the new group. No further group is created, and the player's account starts at 0. |
| IpFilter.NormalizeIpShape | server/src/app/middleware/verifyIP.ts:23 | A normalised address contains no comma and has no white space at either end. |
| IpFilter.NormalizeIpPlain | server/src/app/middleware/verifyIP.ts:23 | An address without the mapped prefix, commas or surrounding white space normalises to itself. |
| IpFilter.Admits | server/src/app/middleware/verifyIP.ts:25-28 | `allowed.includes(ip)` holds exactly when ip is ALLOWED_IP_ADDRESS, or, outside production, ALLOWED_IP_ADDRESS_LOCAL; with neither configured for the mode, nothing is admitted. |
| IpFilter.VerifyIp | server/src/app/middleware/verifyIP.ts:25-33 | A request passes exactly when its normalised address equals ALLOWED_IP_ADDRESS, or, outside production, ALLOWED_IP_ADDRESS_LOCAL. An unset entry admits nothing. |
| IpFilter.LocalAddressOnlyOutsideProduction | server/src/app/middleware/verifyIP.ts:25-28 | An address that only ALLOWED_IP_ADDRESS_LOCAL names is admitted exactly when NODE_ENV is not "production" (including when it is unset). |
| Text.TrimStart | server/src/app/middleware/verifyIP.ts:23 | The longest suffix not starting with white space; everything cut off is white space. |
| Text.TrimEnd | server/src/app/middleware/verifyIP.ts:23 | The longest prefix not ending with white space; everything cut off is white space. |
| Text.TrimIsInfix | server/src/app/middleware/verifyIP.ts:23 | `trim` returns the infix of the input that starts after its leading white space, and only white space follows that infix in the input. |
| Text.TrimEnds | server/src/app/middleware/verifyIP.ts:23 | Neither the first nor the last character of a trimmed string is white space, and trimming adds no character the input lacks. |
| Text.TrimOfTrimmed | server/src/app/middleware/verifyIP.ts:23 | A string that neither starts nor ends with white space is unchanged by `trim`. |
| Text.TrimIdempotent | server/src/app/routes/mod/server-register.post.ts:26 | Trimming twice is trimming once. |
| Text.IndexOfFrom | server/src/app/middleware/verifyIP.ts:23 | `indexOf` from a position: the first occurrence at or after it, or none when there is no occurrence there. |
| Text.ReplaceFirstSpec | server/src/app/middleware/verifyIP.ts:23 | `replace` with a string pattern is the identity when the pattern does not occur. Otherwise it splices the replacement in at the earliest occurrence only. |
| Text.FirstField | server/src/app/middleware/verifyIP.ts:23 | `split(",")[0]`: the prefix before the first comma, or the whole string when there is none. |
| Text.FirstFieldWithoutSeparator | server/src/app/middleware/verifyIP.ts:23 | `split(",")[0]` of a string without a comma is the whole string. |
| Store.EnsureAccount | server/src/app/routes/mod/login.post.ts:80-89 | The account upsert of login (`ON CONFLICT DO UPDATE SET updated_at`) and of withdraw.post.ts:53-60 (`ON CONFLICT DO NOTHING`): the row exists afterwards, an existing balance is kept by both, a new one starts at 0, and no other row changes. |
| LedgerLaws.DepositThenLookup | server/src/features/currency/repo.ts:16-29 | The balance a deposit reports is what `getUserBalance` reads next for the same server and holder. |
| LedgerLaws.DepositThenWithdraw | server/src/app/routes/mod/withdraw.post.ts:37-89 | A deposit of n, then a withdrawal of n notes of denomination 1, restores the balance. When the account already existed, the modelled state is restored (`updated_at` is not modelled). |
| LedgerLaws.PayThenBalance | server/src/app/routes/mod/balance.get.ts:17-25 | After a payment, the balance route reads the sender's reported balance and the recipient's old balance plus the amount. |
| LedgerLaws.ScenarioWithdraw | server/src/app/routes/mod/withdraw.post.ts:76-89 | On a concrete state holding 1000: a 12 × 100 withdrawal is refused with no change, and a 2 × 100 withdrawal reports 200 withdrawn and leaves 800. |
| LedgerLaws.ScenarioPay | server/src/app/routes/mod/pay.post.ts:73-87 | A payment to a uuid without a `user_funds` row is refused as recipient not found and changes nothing. |
| LedgerLaws.ScenarioDaily | server/src/app/routes/mod/daily.post.ts:84-115 | The first claim at 10:00 gives 850; a repeat at the same instant is refused with the next reset at 06:30 the following day; a claim one day later gives 900. |

## Left out

- Transactions, `FOR UPDATE` row locks and interleavings: each handler is one atomic step, and the locks matter only under concurrency. Database and query errors (a 500, or in deposit, withdraw and pay a 400 or the named 404) and the pool wiring are not modelled.
- The pay pre-flight at server/src/app/routes/mod/pay.post.ts:39-50 is modelled only as `PayRoute.PayAsWritten`. It calls `getUserBalance` with the sender's uuid as the server id and no uuid, so it refuses every request (404 or 500) before line 52, and no request reaches the transaction (see Findings). Whether PostgreSQL rejects the uuid as an integer is a parameter.
- PayRoute.Pay: modelled without the pre-flight above, so its contract covers only the transaction at lines 52-85. The handler as written does not reach that part.
- The login handler's rollback issued on the pool instead of its client (login.post.ts:102): a failing login is modelled as no change, and the leaked transaction is not modelled.
- The "Account not found" branch of withdraw (withdraw.post.ts:71-73) is not modelled: it cannot be taken after the ensure-account insert.
- The `accounts.updated_at` column: deposit, withdraw, daily and login set it to `NOW()` (deposit.post.ts:55, withdraw.post.ts:84, daily.post.ts:103, login.post.ts:85), but the clock is not part of the state. Statements that a repeated operation "changes nothing" or that a state is "restored" speak of the modelled columns only; the real row carries a newer `updated_at`.
- Response messages, HTTP status codes, `toLocaleString`, and the hours/minutes text of the daily refusal: failures are typed values; the refusal carries the next reset instant.
- JWT signing and verification, argon2, random key generation: oracles and parameters (see above). Row ids (`playerId`, `accountId`) in the token are not modelled, because rows are keyed by their unique pairs.
- Time zones and daylight-saving changes: days are fixed at 86400 seconds of local wall-clock time. Sub-second precision is dropped.
- JavaScript numbers are doubles, while the model's integers are exact. Above 2^53, `parseFloat` of a stored balance and `count * denom` round, so the balance checks at withdraw.post.ts:76 and pay.post.ts:64 can pass when the exact balance is short, and the handlers can then commit a negative balance. For example, a stored 9007199254740995 parses as 9007199254740996, and withdrawing 9007199254740996 × 1 leaves −1. WithdrawRoute.WithdrawPreservesValid and PayRoute.PayPreservesValid hold for exact integers only.
- Fractional and non-finite JavaScript numbers: amounts, counts, denominations and ids are integers, and a non-number is `None`. `Number(header)` of a fractional id is not modelled.
- ServerRegisterRoute.Register: the 409 answer is modelled as "a server already has this non-null name". The table schema is not part of this model, and a unique violation from any other constraint is not modelled.
- Logging, environment loading and validation, the environment scan script, the production guard, the process lifecycle and route wiring are not part of this model.
- IpFilter.VerifyIp: the socket address is a parameter. `x-forwarded-for` arriving as an array of headers is not modelled.

## Findings

| source | as written | input that shows it | evidently intended | confidence | as-written member | corrected member |
|---|---|---|---|---|---|---|
| server/src/app/routes/mod/pay.post.ts:40 | The pre-flight calls `getUserBalance(db, from_uuid)`: the uuid goes to the server-id parameter and the uuid parameter is undefined (NULL) | Any admissible payment, such as 10 from a sender holding 100 to an existing recipient. `s.id = $1` rejects a non-numeric uuid (500); otherwise `holder_uuid = NULL` matches no row (404 "Sender not found") | A payment reaches the transaction at lines 52-85, whose own checks at lines 56-66 cover a missing sender and insufficient funds | medium (depends on how node-postgres and PostgreSQL treat the values); not executed | PayRoute.PayRefusedAsWritten | PayRoute.Pay |
| server/src/app/routes/mod/withdraw.post.ts:37-38 | The denomination from the body is used whatever its sign | count 1, denomination −500: `amount` is −500, the check at line 76 passes, and line 83 raises the balance by 500 | A withdrawal takes money out, so a denomination must be positive | high; not executed | WithdrawRoute.NegativeDenominationCredits | WithdrawRoute.WithdrawChecked |
| server/src/app/routes/mod/daily.post.ts:34 | Before today's 06:30 the window start is `ts.minus({ days: 1 })`, exactly one day before now | A claim at 06:00 on day 1, then a claim at 05:00 on day 2. The 06:30 reset on day 1 has passed, yet the second claim is refused ("next reset in 0h 0m") because the window start is 05:00 on day 1 | The window starts at yesterday's 06:30 (`resetTime.minus({ days: 1 })`) | high; not executed | DailyRoute.ClaimRefusedAfterReset | DailyRoute.ClaimCorrectedAfterReset |

The handler as written never credits twice within one 06:30-to-06:30 window
(`DailyRoute.ClaimOncePerWindow`). Its fault is the opposite: it can refuse
a claim after a reset has passed. `DailyRoute.LastBoundary` is the corrected
window start, proved to be the latest 06:30 at or before now.
`DailyRoute.ClaimCorrected` uses it; it credits at most once per window
(`DailyRoute.ClaimCorrectedOncePerWindow`) and always admits a claim once a
reset has passed (`DailyRoute.ClaimCorrectedAfterReset`). `DailyRoute.Claim`
keeps the code's behaviour, because the rest of the handler is modelled as
written.

`PayRoute.Pay` is the payment the handler evidently intends: the
transaction alone, for which conservation (`PayRoute.PayConservesTotal`) and
the ledger laws are proved. `WithdrawRoute.Withdraw` keeps the code's
behaviour; `WithdrawRoute.WithdrawChecked` adds the missing check and agrees
with it on every positive denomination.
