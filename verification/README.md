# Verified model of the banking core

Dafny 4.11 models of the money engine, the refresh-token families, the browser's single-flight
refresh and the expiring keys of the banking core, with proofs over every run. `dafny verify
dfyconfig.toml` checks everything.

| file | models |
|---|---|
| `Wrappers.dfy`, `Ledger.dfy` | options, lookups and sums; accounts, transactions, entries |
| `Accounts.dfy` | account creation and update: number retry loop, primary flag |
| `Transfers.dfy` | one transfer at a time, statement by statement, with rollback |
| `Interleaving.dfy` | any number of transfers in flight: private writes, row locks, unique key index |
| `SerialRuns.dfy` | an undisturbed interleaved call is a serial transfer, whatever ended before it |
| `Overdraft.dfy` | what the unlocked balance check allows, exactly |
| `Binary64.dfy`, `DoubleMoney.dfy` | rounding to doubles and printing them; the arithmetic behind the decimal(20,4) balance |
| `History.dfy` | history filters, paging, agreement with balances |
| `Sessions.dfy`, `SessionSafety.dfy` | sessions, rotation, reuse detection, reset; their invariants |
| `SessionOutcomes.dfy` | who may log in, how long tokens live, what logout, registration and reset change |
| `Client.dfy`, `ClientRuns.dfy` | the response interceptor and token storage; run against the sessions, with reloads at any moment |
| `ClientProgress.dfy` | what the interceptor does for the requests it holds back |
| `ExpiringKeys.dfy` | one-time codes and the proof replay cache in one Redis keyspace |

## How the system is modelled

Identifiers are positions in a table. Money is an integer number of 1/10000 units, except in
`DoubleMoney.dfy`. There doubles are exact reals: rounding takes the nearest number on the grid of its
binade, ties to even (sections 3.4 and 4.3.1 of IEEE 754-2019), and a double is printed as a shortest
decimal that reads back, nearest to it (Number::toString of ECMA-262). Exponents are unbounded.

A run is a sequence of steps applied to a state; a step that is not enabled changes nothing. So a
lemma about all sequences of steps is a lemma about all schedules. A transfer call takes one step a
statement. Its writes stay private until its commit, row locks are held to commit or abort, an insert
waits while another open transaction holds its key, and a call may abort at any statement.

Requests to the session tables and each request's access to Redis are atomic. Hashes are taken to be
injective, so a token stands for its hash; whether a proof, a code or a password is right is an input
where the code calls a library to find out. Each request brings its own time; where the browser and the
server run together, the server's clock never goes back. Ties in
`ORDER BY created_at` may come out in any order, another one for every page.

## Where code and documentation differ

The model follows the code.

- A comment says the sender is read with a lock; `findAccountById` takes none
  (fintech-backend/src/modules/transactions/services/transactions.service.ts:69-73,
  fintech-backend/src/modules/accounts/services/accounts.service.ts:161-173).
  `Overdraft.NeverOverdrawnIffNoOverlap` says what follows.
- Line 32 of the banking core's own top-level README says decimal(20,4) eliminates floating-point
  rounding; balances are doubles in between. One update is exact up to a magnitude of 274877906944.0004
  and not beyond (`DoubleMoney.ExactUpToIff`), a comparison up to 549755813888.0002 and not beyond
  (`DoubleMoney.ComparesUpToIff`), while the column goes to 10^16. `DoubleMoney.AdmissibleFailure` is stored
  wrong; above 2^53 a whole amount is exact if and only if it is even (`DoubleMoney.ExactAbove53Iff`).
- Line 23 of the same README says reuse of a token locks all sessions of the user; only its family is
  revoked (`SessionSafety.ReplaySparesOthers`). So a replay locks them all if and only if every live session
  on the user's devices belongs to that family (`SessionSafety.ReplayLocksUserIff`);
  `SessionSafety.ReplaySparesSecondDevice` is a user with two devices for whom it does not.
- A transfer compares neither account currency with the other or with the request
  (fintech-backend/src/modules/transactions/services/transactions.service.ts:70-130): `SerialRuns.CurrencyLost` turns VND
  into USD one to one, `Interleaving.CurrencyDrift` says what any run does.
- The recursive query joins `s.parent_id = tf.id`
  (fintech-backend/src/modules/auth/services/sessions.service.ts:47-58), but the schema, synchronised from
  the entities, makes `id` a uuid and `parent_id` a varchar
  (fintech-backend/src/modules/auth/entities/session.entity.ts:13-27), and PostgreSQL does not compare
  these without a cast. All results about families assume the equality of ids that is meant.
- A page reloaded in the middle of a refresh can be locked out as a thief
  (`ClientRuns.ReloadCanTripIff`, `ClientRuns.ReloadTripsIff`).
- A failure after the commit reports an error although the money has moved; a retry with the same key
  returns the row (`Transfers.RetryIsIdempotent`).
- The login catches every failure and answers Unauthorized, but the issue of tokens is returned without
  being awaited (fintech-backend/src/modules/auth/services/auth.service.ts:89), so a colliding token hash
  surfaces as a server error.

## Model

| member | source | states |
|---|---|---|
| `Interleaving.StepKeepsInv` | fintech-backend/src/modules/transactions/services/transactions.service.ts:64-153 | Every statement of every call, every abort and every account request keeps the whole invariant: books, private writes per phase, reserved keys and ids. |
| `Interleaving.NoLostUpdate` | fintech-backend/src/modules/transactions/services/transactions.service.ts:64-153 | With any number of transfers interleaved statement by statement, each committed balance is the opening balance plus CREDIT minus DEBIT entries. |
| `Interleaving.OnlySuccessWithOnePair` | fintech-backend/src/modules/transactions/services/transactions.service.ts:108-153 | Every reader sees only SUCCESS rows, each with exactly one DEBIT on its sender and one CREDIT on its receiver for its amount, and no other entries. |
| `Interleaving.ExactlyOncePerKey` | fintech-backend/src/modules/transactions/services/transactions.service.ts:43-62 | In every reachable state no two committed rows share an idempotency key, whatever became of the calls that committed them, and every call that returned normally returned the row of its key. |
| `Interleaving.CommittedAsRequested` | fintech-backend/src/modules/transactions/services/transactions.service.ts:70-118 | In every reachable state the committed rows are, one by one, what the calls that committed had requested: key, amount, currency, an account of the requester, the account with the requested number; no call pays twice. |
| `Interleaving.CommittedStays` | fintech-backend/src/modules/transactions/services/transactions.service.ts:147-153 | Rows and entries once committed are never changed or removed by any run. |
| `Interleaving.MoneyIsConserved` | fintech-backend/src/modules/transactions/services/transactions.service.ts:68-153 | No run of transfers, account creations and account updates changes the total money. |
| `Interleaving.CurrencyDrift` | fintech-backend/src/modules/transactions/services/transactions.service.ts:70-130 | Account currencies are never compared: over any run the total of a currency changes by exactly the amounts that the rows committed in it carry into the currency, less those they carry out. |
| `Interleaving.CurrenciesConservedIff` | fintech-backend/src/modules/transactions/services/transactions.service.ts:68-153 | The total of every currency stays put throughout a run if and only if each row it commits joins two accounts of one currency. |
| `SerialRuns.CurrencyLost` | fintech-backend/src/modules/transactions/services/transactions.service.ts:70-130 | One transfer from a VND account to a USD account takes the whole VND total to zero and adds it to the USD total. |
| `Interleaving.UncommittedCallOwnsNothing` | fintech-backend/src/modules/transactions/services/transactions.service.ts:68-170 | Whatever other calls do, a call that at no moment of a run stands committed, so every one that failed before its commit, has paid for no row and left no entry. |
| `Interleaving.OnlyCommitChangesTables` | fintech-backend/src/modules/transactions/services/transactions.service.ts:169-170 | No statement of a transfer but its commit changes the committed tables; an abort never does. |
| `Interleaving.UpdateBalanceStep` | fintech-backend/src/modules/accounts/services/accounts.service.ts:179-196 | The locked read-modify-write of one row keeps the invariant whatever other calls are doing. |
| `Interleaving.CommitEffect` | fintech-backend/src/modules/transactions/services/transactions.service.ts:121-153 | The commit appends one row and its double entry and moves exactly the amount between the two balances, nothing else. |
| `Interleaving.ReserveStep` | fintech-backend/src/modules/transactions/entities/transaction.entity.ts:56 | The unique index keeps keys of committed and open transactions pairwise distinct. |
| `SerialRuns.LocksAreHeld` | fintech-backend/src/modules/transactions/services/transactions.service.ts:169-197 | In every reachable state a row is locked only by a call that has written to it and has neither committed nor failed. |
| `SerialRuns.NextCallIsSerial` | fintech-backend/src/modules/transactions/services/transactions.service.ts:30-199 | After any run, with whatever commits, failures and aborts: once all calls are over, the next one runs to its end and does exactly what the serial transfer does. |
| `SerialRuns.AbortEndsCall` | fintech-backend/src/modules/transactions/services/transactions.service.ts:169-197 | A throwing statement ends its call with that error, frees its rows, drops its writes and touches nothing else. |
| `SerialRuns.BlockedCallWaits` | fintech-backend/src/modules/accounts/services/accounts.service.ts:185-188 | A call whose row is locked waits unchanged; once the row is free it writes on top of what has been committed meanwhile. |
| `SerialRuns.KeyTakenWaits` | fintech-backend/src/modules/transactions/entities/transaction.entity.ts:56 | While another open call has inserted the same key, a call waits unchanged. |
| `SerialRuns.KeyRace` | fintech-backend/src/modules/transactions/services/transactions.service.ts:108-119 | Of several calls of one key in flight the losers end in a conflict, and a retry returns the winner's row. |
| `Overdraft.OverdraftBound` | fintech-backend/src/modules/transactions/services/transactions.service.ts:70-105 | With at most k transfers from an account past a covering read, each at most m, its balance never falls below -(k-1)*m. |
| `Overdraft.BoundIsReached` | fintech-backend/src/modules/accounts/services/accounts.service.ts:161-173 | The bound is tight for every k and m: since the balance check takes no lock, some run with overlap k ends at exactly -(k-1)*m. |
| `Overdraft.NeverOverdrawnIffNoOverlap` | fintech-backend/src/modules/transactions/services/transactions.service.ts:103-105 | Balances stay non-negative on all runs with overlap at most k if and only if k is at most 1. |
| `Transfers.TransactionsService.Transfer` | fintech-backend/src/modules/transactions/services/transactions.service.ts:30-199 | The in-place service does one serial transfer, restores the tables on any failure up to the commit, and keeps the moved money on a failure after it. |
| `Transfers.TransactionsService.UpdateBalance` | fintech-backend/src/modules/accounts/services/accounts.service.ts:179-196 | Adds the amount to one balance and nothing else, or reports a missing account. |
| `Transfers.AcceptedIff` | fintech-backend/src/modules/transactions/services/transactions.service.ts:70-105 | A transfer of a new key is accepted exactly from an own account that covers the amount to another, existing account; which error the others get; refusals change nothing. |
| `Transfers.AcceptedMoves` | fintech-backend/src/modules/transactions/services/transactions.service.ts:108-148 | An accepted transfer adds the row and the two entries requested and moves the amount between exactly two balances. |
| `Transfers.TransferKeepsMoney` | fintech-backend/src/modules/transactions/services/transactions.service.ts:97-130 | Serially a transfer conserves the total and never makes a non-negative balance negative. |
| `Binary64.RndNearest` | fintech-backend/src/modules/accounts/entities/account.entity.ts:23-25 | What parsing yields: no double is nearer to a number than its rounding. |
| `Binary64.EveryDoublePrints` | fintech-backend/src/modules/accounts/entities/account.entity.ts:20-22 | Every double has a shortest decimal nearest to it, so the results below are about something for every update. |
| `DoubleMoney.ExactUpToIff` | fintech-backend/src/modules/accounts/services/accounts.service.ts:194-195 | Parse, add, print and round to four places is exact, adding or taking away, for all balances and amounts whose magnitudes add up to at most n units if and only if n is at most 2748779069440004 (274877906944.0004); the same bound holds for amounts of at least 1000 alone. |
| `DoubleMoney.UpdateIsExact` | fintech-backend/src/modules/accounts/entities/account.entity.ts:19-26 | Up to there the integer sum and difference are stored, and nothing else is. |
| `DoubleMoney.AdmissibleFailure` | fintech-backend/src/modules/accounts/entities/account.entity.ts:55-62 | 295908020270.5499 and 39258.7963 are stored as 295908059529.3463, one unit too much, and as nothing else. |
| `DoubleMoney.ComparesUpToIff` | fintech-backend/src/modules/transactions/services/transactions.service.ts:103 | The test balance < amount on doubles decides as on the integers for all magnitudes up to n units if and only if n is at most 5497558138880002 (549755813888.0002). |
| `DoubleMoney.SeriesIsExact` | fintech-backend/src/modules/accounts/services/accounts.service.ts:194-195 | A series of updates stores the integer result, and nothing else, while every step is within the exact range: no error accumulates. |
| `DoubleMoney.ExactAbove53Iff` | fintech-backend/src/modules/accounts/entities/account.entity.ts:55-62 | From 2^53 up to the end of the column, a whole amount added to or taken from a whole stored balance is exact if and only if the amount is even. |
| `Accounts.AccountsService.CreateAccount` | fintech-backend/src/modules/accounts/services/accounts.service.ts:15-62 | The retry loop ends exactly when some draw is an unused number; the account it adds and the cleared primary flags are the specified ones. |
| `Accounts.AccountsService.UpdateAccount` | fintech-backend/src/modules/accounts/services/accounts.service.ts:64-112 | The edit changes what the specification says, and a refused edit changes nothing. |
| `Accounts.CreationIsAsAsked` | fintech-backend/src/modules/accounts/services/accounts.service.ts:15-62 | A creation adds one empty account with the owner, name and currency asked for, under the first number drawn that is free; it is primary if asked for or the first; no other field of another account changes. |
| `Accounts.EditIsAsAsked` | fintech-backend/src/modules/accounts/services/accounts.service.ts:64-112 | An edit is refused exactly for a foreign account or for the flag of the only primary one; otherwise name and flag are as asked for, and nothing but the flags of the user's others changes. |
| `Accounts.RunsAreSound` | fintech-backend/src/modules/accounts/services/accounts.service.ts:19-61 | After any run of account requests each user with an account has exactly one primary account and numbers are distinct 10-digit strings. |
| `Accounts.UnusedNumberExists` | fintech-backend/src/modules/accounts/services/accounts.service.ts:27-37 | A draw that ends the retry loop exists while fewer than 9*10^9 accounts do. |
| `Accounts.NumberFrom` | fintech-backend/src/modules/accounts/services/accounts.service.ts:28-30 | Every draw yields a 10-digit string. |
| `Accounts.NumberIsFloor` | fintech-backend/src/modules/accounts/services/accounts.service.ts:28-30 | The digits are those of the integer part of 10^9 + r * 9 * 10^9. |
| `Accounts.RunsKeepTotal` | fintech-backend/src/modules/accounts/services/accounts.service.ts:15-112 | Account requests neither make nor destroy money. |
| `History.GetHistory` | fintech-backend/src/modules/transactions/services/transactions.service.ts:204-290 | Shows, newest first and in full pages, rows of the user's accounts that meet the kind, dates and text asked for; the total is the number of rows that do; an account the user does not own shows nothing. |
| `History.BuildConditions` | fintech-backend/src/modules/transactions/services/transactions.service.ts:244-282 | The conditions added to the query one by one select exactly what the filter says. |
| `History.PagesFitIffDistinctTimes` | fintech-backend/src/modules/transactions/services/transactions.service.ts:284-289 | For all page sizes and all orderings of ties, the pages make up exactly the selected rows, newest first, if and only if no two selected rows share a creation time. |
| `History.PagesAddUp` | fintech-backend/src/modules/transactions/services/transactions.service.ts:223-287 | With distinct times, amounts added page by page give the sum over the whole selection. |
| `History.CountByKind` | fintech-backend/src/modules/transactions/services/transactions.service.ts:249-263 | The unfiltered count is DEBIT plus CREDIT minus the rows with both ends in the target accounts. |
| `History.HistoryAgreesWithBalance` | fintech-backend/src/modules/transactions/services/transactions.service.ts:225-263 | In every reachable state the CREDIT history minus the DEBIT history of an account is its balance minus its opening balance. |
| `Sessions.FamilyIds` | fintech-backend/src/modules/auth/services/sessions.service.ts:47-58 | Working-table evaluation of the recursive query terminates on every table, cyclic ones included, with exactly the sessions reachable by child links. |
| `Sessions.AuthService.RevokeTokenFamily` | fintech-backend/src/modules/auth/services/sessions.service.ts:47-61 | Revokes exactly that family, in place. |
| `Sessions.AuthService.RevokeSession` | fintech-backend/src/modules/auth/services/sessions.service.ts:28-35 | Revokes one session or reports that it does not exist. |
| `Sessions.AuthService.RevokeAllForDevice` | fintech-backend/src/modules/auth/services/sessions.service.ts:38-43 | Afterwards each session of the device is revoked and otherwise as it was; sessions of other devices are untouched. |
| `Sessions.AuthService.IssueTokens` | fintech-backend/src/modules/auth/services/auth.service.ts:173-215 | Appends one live session with a fresh token, linked to its parent; a token already in use is refused. |
| `SessionOutcomes.TokenLivesThirtyDays` | fintech-backend/src/modules/auth/services/auth.service.ts:133-185 | A token from a login or refresh is good for a refresh with its device's key up to 2592000 seconds after its issue; later it is turned down and nothing changes. |
| `Sessions.AuthService.HandleLogin` | fintech-backend/src/modules/auth/services/auth.service.ts:46-101 | Finds or binds the device, ends its sessions, issues tokens; bad credentials are Unauthorized, a token collision surfaces as a server error with the device bound and its sessions ended. |
| `SessionOutcomes.LoginIff` | fintech-backend/src/modules/auth/services/auth.service.ts:46-89 | A login succeeds exactly with the password of the user with that email, not locked, and an unused fresh token; with wrong credentials it is Unauthorized and changes nothing. |
| `SessionOutcomes.LoginEffect` | fintech-backend/src/modules/auth/services/auth.service.ts:71-89 | It creates one live session for 30 days on the device of that key, the user's if new, and revokes exactly the other sessions of that device. |
| `Sessions.AuthService.HandleRefresh` | fintech-backend/src/modules/auth/services/auth.service.ts:104-165 | Reuse detection before expiry before proof before key; rotation otherwise. |
| `SessionOutcomes.RefreshAnswers` | fintech-backend/src/modules/auth/services/auth.service.ts:104-165 | Which of the five answers a refresh with a known token gets, for every proof, time and state of its session. |
| `SessionOutcomes.RotationEffect` | fintech-backend/src/modules/auth/services/auth.service.ts:158-164 | A rotation revokes that session and appends its one child, live for 30 days on the same device, and nothing else. |
| `Sessions.AuthService.HandleLogout` | fintech-backend/src/modules/auth/services/auth.service.ts:168-170 | Revokes the named session. |
| `SessionOutcomes.LogoutEndsSession` | fintech-backend/src/modules/auth/services/auth.service.ts:168-170 | After a logout answered Done that session's token is refused in every continuation. |
| `SessionOutcomes.LogoutEffect` | fintech-backend/src/modules/auth/services/auth.service.ts:168-170 | A logout changes no other session. |
| `Sessions.AuthService.HandleResetVerify` | fintech-backend/src/modules/auth/services/auth.service.ts:341-377 | The loop over the devices revokes every session on any device the user owns and no other. |
| `SessionOutcomes.LoginAfterReset` | fintech-backend/src/modules/auth/services/auth.service.ts:360-364 | After a reset exactly the new password logs in, unless the user is locked; all other users log in as before. |
| `SessionOutcomes.ResetEffect` | fintech-backend/src/modules/auth/services/auth.service.ts:360-372 | A reset ends exactly the sessions on the user's devices. |
| `SessionOutcomes.ResetRefused` | fintech-backend/src/modules/auth/services/auth.service.ts:341-356 | Without an accepted code or for an unknown email a reset changes nothing. |
| `Sessions.AuthService.HandleRegister` | fintech-backend/src/modules/auth/services/auth.service.ts:268-281 | Adds a user unless the email is taken. |
| `SessionOutcomes.LoginAfterRegister` | fintech-backend/src/modules/auth/services/auth.service.ts:262-281 | Once a new email is registered, a login with another password is Unauthorized, and with the registered one it succeeds. |
| `SessionSafety.ServeKeepsValid` | fintech-backend/src/modules/auth/services/auth.service.ts:85-194 | Every request keeps the forest invariant, un-revokes nothing and forgets nothing. |
| `SessionSafety.ReachableForest` | fintech-backend/src/modules/auth/services/auth.service.ts:158-194 | In every reachable table links are acyclic, each session has at most one child, a parent is revoked, a device has at most one live session. |
| `SessionSafety.TokenWorksOnce` | fintech-backend/src/modules/auth/services/auth.service.ts:114-164 | After one success a refresh token is refused in every continuation. |
| `SessionSafety.ReplayKillsFamily` | fintech-backend/src/modules/auth/services/auth.service.ts:124-130 | Replaying a revoked token leaves its whole family revoked, ancestors included although the query only walks down. |
| `SessionSafety.ReplaySparesOthers` | fintech-backend/src/modules/auth/services/sessions.service.ts:47-58 | A replay revokes no session of another family. |
| `SessionSafety.ReplayLocksUserIff` | fintech-backend/src/modules/auth/services/auth.service.ts:124-130 | A replay leaves every session on the user's devices revoked if and only if all that were live belong to the replayed family. |
| `SessionSafety.ReplaySparesSecondDevice` | fintech-backend/src/modules/auth/services/auth.service.ts:124-130 | A user registered and logged in on two devices: replaying the first device's spent token is detected, and the second device's session stays live. |
| `SessionSafety.DeadFamilyStaysDead` | fintech-backend/src/modules/auth/services/auth.service.ts:125-130 | From then on no run contains a live session of that family. |
| `SessionSafety.FamilyIsChain` | fintech-backend/src/modules/auth/services/sessions.service.ts:47-58 | Of two sessions of one family the older reaches the newer by child links. |
| `SessionSafety.ResetEndsSessions` | fintech-backend/src/modules/auth/services/auth.service.ts:369-372 | After a password reset no earlier refresh token on any device of the user succeeds in any continuation. |
| `Client.Page.HandleResponse` | fintech-frontend/src/api/axiosClient.ts:63-120 | A 401 makes a request wait at most once, starts a refresh only if none is under way, and rejects otherwise. |
| `ClientProgress.UnauthorizedWaits` | fintech-frontend/src/api/axiosClient.ts:71-113 | In every reachable state with a stored token, a 401 of a request not yet retried flags it and makes it wait for a refresh, which is started with the stored token exactly if none is under way. |
| `ClientProgress.OtherAnswersSettle` | fintech-frontend/src/api/axiosClient.ts:68-119 | Every other answer settles the request and starts nothing. |
| `ClientProgress.SendSends` | fintech-frontend/src/App.tsx:46-48 | A new request is sent once, except that nothing is sent until the start-up refresh has settled. |
| `Client.Page.HandleRefreshAnswer` | fintech-frontend/src/store/slices/authSlice.ts:37-49 | A refresh that succeeds stores the new token and resends all waiting requests; one that fails drops the stored token. |
| `ClientProgress.TokensResend` | fintech-frontend/src/api/axiosClient.ts:93-113 | When the tokens arrive the new one is stored and exactly the waiting requests are in flight, with one more send. |
| `ClientProgress.FailureRejects` | fintech-frontend/src/api/axiosClient.ts:97-116 | When a refresh fails the tokens are dropped, and once the logout has settled exactly the waiting requests are rejected. |
| `ClientProgress.ReloadAsks` | fintech-frontend/src/App.tsx:30-43 | A reload keeps the stored token and, if there is one, asks with it before anything else is sent. |
| `ClientProgress.StartUpFailure` | fintech-frontend/src/App.tsx:34-42 | A start-up refresh that fails leaves the page without tokens and calls no logout. |
| `ClientProgress.ExpiredAccessIsRenewed` | fintech-frontend/src/api/axiosClient.ts:71-113 | After a login, a request answered 401 is in flight again, sent twice, with the rotated token stored, as soon as the refresh is served in time. |
| `Client.Page.HandleLogoutSettled` | fintech-frontend/src/api/axiosClient.ts:103-107 | The waiting requests are rejected and the shared refresh is cleared. |
| `Client.Page.ReleaseWaiting` | fintech-frontend/src/api/axiosClient.ts:111-116 | Every waiting request goes on, and no other is touched. |
| `ClientRuns.LoginStarts` | fintech-frontend/src/store/slices/authSlice.ts:22-35 | A successful login leads to a state from which the runs below start, whatever the tables hold. |
| `ClientRuns.EarlierQuestionIsUnrelated` | fintech-backend/src/modules/auth/services/auth.service.ts:85-89 | Questions with tokens from before the login, still on their way, are among the requests of others that those runs admit at any moment. |
| `ClientRuns.HonestClientNeverTrips` | fintech-frontend/src/api/axiosClient.ts:78-117 | In any run from a login to the user's next login, logout or reset without a reload in the middle of a refresh, no refresh of this login is answered as a replay, and each presents the unrevoked tip of its chain, even if answers are lost and questions of earlier logins arrive. |
| `ClientRuns.TripsIffAskedAgain` | fintech-backend/src/modules/auth/services/auth.service.ts:124-164 | From a login, with reloads at any moment and questions of earlier pages arriving at any later time or never, some refresh of this login is taken for a replay if and only if some token got past the checks once and was presented again with a proof header. |
| `ClientRuns.ReloadCanTripIff` | fintech-frontend/src/App.tsx:30-43 | After a reload in the middle of a refresh some continuation without another one is taken for a replay if and only if the token of the abandoned refresh is spent already, or its question is still on its way and the server's clock has not passed its session's expiry. |
| `ClientRuns.ReloadTripsIff` | fintech-frontend/src/App.tsx:30-43 | In every such continuation there is a replay if and only if the token of the abandoned refresh was rotated, for the old question or the new one, and then came once more with a proof header. |
| `ClientRuns.SendsAndRefreshesBounded` | fintech-frontend/src/api/axiosClient.ts:78-117 | n application requests cause at most 2n sends and at most n refreshes started by the interceptor. |
| `ClientRuns.EveryRequestSettles` | fintech-frontend/src/api/axiosClient.ts:68-113 | At most 6n + 3 network calls can end, and when none is outstanding every request has settled. |
| `ExpiringKeys.OtpService.Save` | fintech-backend/src/modules/auth/services/otp.service.ts:41-49 | Stores the code under its purpose and email, replacing a pending one. |
| `ExpiringKeys.OtpService.VerifyAndRetrieve` | fintech-backend/src/modules/auth/services/otp.service.ts:83-106 | Accepts and deletes a pending code that matches, and changes nothing otherwise. |
| `ExpiringKeys.DPoPGuard.CanActivate` | fintech-backend/src/modules/auth/guards/dpop.guard.ts:64-103 | Refuses a recorded proof, records a new one, and refuses it still if its payload hash is wrong. |
| `ExpiringKeys.KeysApart` | fintech-backend/src/modules/auth/services/otp.service.ts:20-24 | For all emails and proof names the three kinds of keys never collide. |
| `ExpiringKeys.KeyspaceRefinesMaps` | fintech-backend/src/modules/auth/services/otp.service.ts:41-152 | In every run the one keyspace answers every request as three independent expiring maps would. |
| `ExpiringKeys.ProofAcceptedIff` | fintech-backend/src/modules/auth/guards/dpop.guard.ts:64-103 | In every run a proof is accepted exactly if it is verified and named, its payload hash is right, and no proof of that jti was recorded in the 300 seconds before; one with a wrong hash is recorded too. |
| `ExpiringKeys.AcceptedProofsApart` | fintech-backend/src/modules/auth/guards/dpop.guard.ts:70-79 | Two accepted proofs with one jti are at least 300 seconds apart. |
| `ExpiringKeys.ProofExpires` | fintech-backend/src/modules/auth/guards/dpop.guard.ts:79 | A good proof shown twice is accepted the second time exactly from 300 seconds on. |
| `ExpiringKeys.CodeExpires` | fintech-backend/src/modules/auth/services/otp.service.ts:20-49 | A code shown again after some time is accepted exactly within 300 seconds. |
| `ExpiringKeys.AcceptedCodeIsLatest` | fintech-backend/src/modules/auth/services/otp.service.ts:83-152 | A code is accepted only if it is the latest for its email and purpose, unspent and under 300 seconds old; what is handed back is the email, password hash and name that were saved. |
| `ExpiringKeys.FreshCodeIsAccepted` | fintech-backend/src/modules/auth/services/otp.service.ts:83-152 | Conversely the latest unspent code presented in time is accepted. |
| `ExpiringKeys.NewCodeBetweenSuccesses` | fintech-backend/src/modules/auth/services/otp.service.ts:102-151 | Each saved code authorises at most one success: a new code is saved between any two. |

## Left out

- Deadlock freedom: locks are taken sender first, so opposite transfers can deadlock; the model lets any call abort at any statement instead.
- Foreign-key locks of the database: the model allows more interleavings than they do, which is safe for the safety results; the overdraft runs do not depend on it.
- The `version` column: it is written but no query compares it.
- Overlapping refreshes of one token inside the server: each request is atomic here.
- The logout call sent when no refresh token is stored: it carries no access token, since the two are dropped together, so it reaches no session.
- Several tabs of one browser: the honest client is a single tab.
- Null descriptions and the matching rules of LIKE: the text match is a parameter, for any matching rule.
- `leftJoinAndSelect` of sender and receiver in the history: only the transaction rows are modelled.
- Ledger statements: `getStatement` reads only one of the user's accounts, so no completeness law holds.
- Beneficiaries: an update applies any account number without repeating the checks of creation.
- Subject preservation from login to refresh: login reuses a device found by thumbprint whoever owns it.
- Token signing, password hashing, thumbprints, random bytes and JSON payloads: library calls.
- Mail, events, audit logs, sockets, user interface, request validation beyond its ranges.
