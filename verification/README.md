# Scoutpulse: a verified model

Dafny 4.11 models of the stateful cores of the repository, with proofs of what each one is for.
`dafny verify dfyconfig.toml` checks the whole project.

Concurrent code is modelled step by step: a world, the actions that can happen to it, and `Run` over
any sequence of them. Every statement or transaction against the database is one step, a handler
that is between two statements is a frame, and the theorems quantify over all sequences of actions.
Code that updates something in place is a class whose methods are proved against functions on
values; the theorems are about those functions. Lemmas that tie the two together (`LoneIsARun`,
`LoneRefreshRuns`) show that the method is the interleaved steps in a row.

| file | what it models |
|---|---|
| `TokenTable.dfy`, `TokenProtocol.dfy`, `RefreshHandler.dfy` | refresh tokens: the table, the interleaved protocol of sign-in, refresh, logout, role change, reuse detection and janitor, and the handler in one go |
| `BrowserTabs.dfy`, `Bystanders.dfy`, `TabLimit.dfy` | tabs that share one cookie and race to refresh it, what the other handlers may do meanwhile, and how many tabs survive |
| `RateLimit.dfy` | the token-bucket limiter, its sweep, its probe and Retry-After |
| `Classify.dfy` | how an import infers loans and their returns |
| `TransferMerge.dfy`, `TransferMergeProofs.dfy` | the transfer step of an import, and why it can be run again |
| `Matching.dfy` | which local club or player a source id becomes |
| `Seasons.dfy` | fitting imported seasons between the existing ones |
| `WholeImport.dfy` | the steps of an import one after the other, and running it again |
| `CurrentClub.dfy`, `MarketValues.dfy`, `CoachSpells.dfy` | the three columns derived from dated history |
| `ArticleBody.dfy`, `Slug.dfy`, `Articles.dfy`, `ArticleRuns.dfy` | the body validator, the address, the editorial workflow, and the workflow under concurrent use |
| `GrantCache.dfy` | the cache in front of the editor grants |

Results where the code does less than its comments suggest, each with the exact condition:

- The sweep of idle buckets is not only about memory: for a limit that refills more slowly than in
  ten minutes it hands a fresh burst back. The limit on failed sign-ins (one in three minutes after
  ten) is such a limit (`SweepInvisibleIff`, `ConfiguredLimits`).
- A refresh race signs nobody out, over all its timely courses inside the grace, exactly when there
  are at most two tabs (`TwoTabsAtMost`). Other handlers may be at work all the while. Timely means
  two things: no retry starts before the winner's cookie has landed, without which two tabs are too
  many (`HastyRetrySignsOut`), and no other handler exchanges, revokes or deletes an unexpired token
  of the raced session, without which one tab is too many (`LogoutSignsOut`). `SparesIff` says which
  steps qualify; what is done to other sessions and other users does.
- The address of an article is permanent unless a first publication falls between another writer's
  read and write; then the stale row wins, unless it publishes at the same instant under the same
  address (`WriteKeepsAddressIff`, `OvertakenEditUnpublishes`).
- An answer about a grant is current, or its invalidation still to come, exactly when no miss stores
  an answer that a change and its invalidation have both overtaken; otherwise it is stale for up to
  five seconds (`AnswersAreCurrentIff`, `NoAnswerIsStalerThanTheTtl`).
- Distinct clubs or players of the source get distinct rows, whatever they are called, exactly when
  no new one comes before a known one (`DistinctClubsIff`, `DistinctPlayersIff`).
- A transfer row found by its reference keeps its player: a source move is stored under its own
  player exactly when no reference from before leads to somebody else's row
  (`EveryMoveIsStored`, `AnotherPlayersRow`).
- Importing a range of seasons fails exactly when, for a year of it, one existing season ends on
  14 August and another begins on 16 August (`ImportFailsIff`).

Modelling choices: instants are whole nanoseconds and dates whole days, both unbounded integers.
Floating point in the limiter is real arithmetic. A refresh token is named by its row, since secret,
hash and row are in one-to-one correspondence. Generated ids and suffixes are parameters, fresh
where the database guarantees it. Regular expressions, URL parsing, JSON decoding, Unicode classes
and name folding are parameters too, so the theorems hold whatever they accept.

## Model

| member | source | states |
|---|---|---|
| TokenProtocol.EveryInterleavingIsSafe | apps/identity-svc/internal/handler/auth.go:340-406 | in every interleaving of sign-in, refresh, logout, role change, reuse detection, janitor and account deletion: one unrevoked token per sign-in at most, a replaced token is revoked, links stay inside one user and one family and lead to later tokens, no two chains meet, and no token is exchanged twice |
| TokenProtocol.StepKeeps | apps/identity-svc/internal/repository/refresh_token.go:52-139 | every single database or clock step of any handler keeps the invariant behind it |
| TokenProtocol.Chain | apps/identity-svc/internal/repository/refresh_token.go:89-104 | following the links from any stored token climbs strictly through one family, passes only spent tokens and ends |
| TokenProtocol.RevocationIsFinal | apps/identity-svc/internal/repository/refresh_token.go:124-131 | once a user's sessions have been ended, no token of any family the user had is ever active again and no exchange in such a family ever succeeds, whatever refreshes had already read their token |
| TokenProtocol.DeadForever | apps/identity-svc/internal/repository/refresh_token.go:89-104 | a family without an unrevoked token never gets one again, over every run |
| TokenProtocol.JanitorPrunesPrefixes | apps/identity-svc/internal/repository/refresh_token.go:133-139 | pruning removes a token only if it also removes the one before it, so kept rows are left exactly as they were |
| TokenProtocol.LoneRefreshRuns | apps/identity-svc/internal/handler/auth.go:352-406 | the interleaved steps of one refresh, run in a row, do what the handler does in one go |
| TokenProtocol.LoneSignIn | apps/identity-svc/internal/handler/auth.go:502-529 | a sign-in stores one unrevoked row of the user that lasts thirty days and answers with it |
| TokenProtocol.AccountTakesItsTokens | apps/identity-svc/migrations/000002_refresh_tokens.up.sql:9 | deleting an account removes exactly its tokens and leaves every other row as it was |
| TokenTable.TokenRepository.Create | apps/identity-svc/internal/repository/refresh_token.go:52-61 | a new unrevoked row under an id never used before, nothing else changed |
| TokenTable.TokenRepository.GetByToken | apps/identity-svc/internal/repository/refresh_token.go:63-73 | the row, or nothing for an unknown token |
| TokenTable.TokenRepository.Rotate | apps/identity-svc/internal/repository/refresh_token.go:75-110 | succeeds exactly when the spent row is unrevoked, then inserts the replacement and revokes and links the old row; a loser leaves the table as it was |
| TokenTable.TokenRepository.Revoke | apps/identity-svc/internal/repository/refresh_token.go:112-122 | stamps that row if it is unrevoked; unknown and revoked tokens are no error |
| TokenTable.TokenRepository.RevokeAllForUser | apps/identity-svc/internal/repository/refresh_token.go:124-131 | stamps exactly the user's unrevoked rows |
| TokenTable.TokenRepository.DeleteExpired | apps/identity-svc/internal/repository/refresh_token.go:133-139 | removes exactly the rows that expired before the date, clears links to them and counts them |
| RefreshHandler.Handler.Refresh | apps/identity-svc/internal/handler/auth.go:340-406 | acts on the body's token whatever the cookie holds, else on the cookie's for a cookie client, else refuses: an active token of an account that can be read is exchanged, one revoked longer ago than the grace ends every session of its user, and anything else changes nothing |
| RefreshHandler.ActiveIsExchanged | apps/identity-svc/internal/handler/auth.go:352-406 | an active token is answered with a new one that lasts a full lifetime; its own row is revoked and linked, and no other row changes |
| RefreshHandler.ReuseEndsEverySession | apps/identity-svc/internal/handler/auth.go:358-366 | a token revoked longer ago than the grace revokes exactly the unrevoked rows of its user and is refused |
| RefreshHandler.Handler.Logout | apps/identity-svc/internal/handler/auth.go:410-429 | leaves the token presented revoked, the body's whatever the cookie holds, and every other row as it was |
| BrowserTabs.NoFalseAlarm | apps/identity-svc/internal/handler/auth.go:358-366 | however many tabs race on one cookie, and whatever sign-ins, refreshes of other sessions, logouts, role changes, deletions and janitors happen meanwhile, inside the 30 s grace no handler that serves a tab decides to end the user's sessions |
| BrowserTabs.TwoTabsStaySignedIn | apps/frontend/src/app/core/auth/auth-repository.ts:136-149 | two tabs that present the same token inside the grace are never signed out, and when both are done the cookie holds the only unrevoked token of the session, whatever other handlers are under way or do, as long as they leave the unexpired tokens of this session alone and no retry starts before the winner's cookie has landed |
| BrowserTabs.PlayKeepsRace | apps/frontend/src/app/core/auth/auth-interceptor.ts:78-97 | the invariant of the two-tab race holds over every course of tabs and other handlers in which nobody else touches the session and no retry overtakes the winner's cookie |
| BrowserTabs.SpareKeepsRace | apps/identity-svc/internal/repository/refresh_token.go:89-139 | a step of another handler that spares the session keeps that invariant: it issues no token in the session |
| BrowserTabs.TheRaceFinishes | apps/frontend/src/app/core/auth/auth-repository.ts:140-149 | every effective move of a tab or its handler brings the end nearer, the others cost nothing, and until both tabs are signed in a timely effective move of a tab or its handler exists |
| Bystanders.SparesIff | apps/identity-svc/internal/repository/refresh_token.go:75-139 | a step spares the session in the cookie exactly when the rows it exchanges, revokes or deletes are none of its unexpired ones |
| Bystanders.TouchedRows | apps/identity-svc/internal/repository/refresh_token.go:75-139 | a step changes or removes exactly the unrevoked rows it exchanges or revokes and the rows it deletes |
| Bystanders.MostStepsSpare | apps/identity-svc/internal/handler/auth.go:340-406 | signing in, loading, checking and giving up spare every session, and so does a janitor that deletes what has expired |
| Bystanders.OtherUsersSpare | apps/identity-svc/internal/repository/refresh_token.go:124-131 | ending or deleting the sessions of another user spares this one |
| Bystanders.OtherSessionsSpare | apps/identity-svc/internal/repository/refresh_token.go:75-122 | a refresh or logout of another session, or with a spent token of this one, spares this one |
| TabLimit.TwoTabsAtMost | apps/frontend/src/app/core/auth/auth-repository.ts:140-149 | every timely course inside the grace, other handlers at work on other sessions included, leaves everybody signed in exactly when there are at most two tabs, for any number of tabs |
| TabLimit.ThirdTabMaySignOut | apps/frontend/src/app/core/auth/auth-repository.ts:140-149 | with three tabs or more there is always a timely course, over in no time, that signs the third out |
| TabLimit.HastyRetrySignsOut | apps/frontend/src/app/core/auth/auth-repository.ts:143-147 | with two tabs, a retry that does not wait for the winner's cookie signs its tab out: waiting is needed |
| TabLimit.LogoutSignsOut | apps/identity-svc/internal/handler/auth.go:410-429 | from every start, a logout of the cookie's token by another handler, the only untimely move of the course, signs a tab out in no time: sparing the session is needed |
| RateLimit.SweepInvisibleIff | libs/platform/server/ratelimit.go:90-103 | the sweeping limiter answers every run of calls and probes like one that never sweeps, exactly when a bucket idle for just over ten minutes has refilled |
| RateLimit.SweepNoticed | libs/platform/server/ratelimit.go:93-103 | otherwise a concrete run tells the two apart |
| RateLimit.AnswersAlike | libs/platform/server/ratelimit.go:58-103 | with that refill, two limiters that agree on every key keep giving the same answers over every run |
| RateLimit.ConfiguredLimits | apps/identity-svc/cmd/server/main.go:36-49 | the two request limits refill while idle; the limit on failed sign-ins does not |
| RateLimit.AdmissionBound | libs/platform/server/ratelimit.go:58-88 | for a limit that refills while idle: after any history, one key gets at most burst + rate x window requests through in any window |
| RateLimit.AdmissionBoundAnyLimit | libs/platform/server/ratelimit.go:58-103 | for every limit, also one the sweep weakens: at most burst x (1 + window / 10 min) + rate x window |
| RateLimit.HonouringRetryAfterSuffices | libs/platform/server/ratelimit.go:112-128 | after a refusal, once the whole seconds of the header (section 10.2.3 of RFC 9110) have passed with no admission in between, the next call is let through, however often the key polled and whatever the sweep did |
| RateLimit.HeaderSuffices | libs/platform/server/ratelimit.go:82-85 | rounding down to nanoseconds and then to seconds never shortens the wait below what a token needs |
| RateLimit.HeaderIsTight | libs/platform/server/ratelimit.go:82-85 | and the header asks for at most a second more than the token needs |
| RateLimit.ProbeAgrees | libs/platform/server/ratelimit.go:139-154 | a probe answers exactly what a call at that instant would, and changes nothing |
| RateLimit.Limit.Allow | libs/platform/server/ratelimit.go:58-88 | new state and verdict of one call: refill, cap, sweep when due, spend or refuse |
| RateLimit.Limit.Sweep | libs/platform/server/ratelimit.go:93-103 | at most once a minute, drops exactly the buckets idle for more than ten minutes |
| RateLimit.Limit.Blocked | libs/platform/server/ratelimit.go:139-154 | the probe's verdict, with the state untouched |
| RateLimit.Limit.Record | libs/platform/server/ratelimit.go:157-159 | the state after a call, the verdict dropped |
| Classify.ClassifyMoves | apps/football-svc/internal/importer/rules.go:200-259 | the output is the stably sorted history, each move with the kind and fee of the declarative specification |
| Classify.PlainMovesByTheFields | apps/football-svc/internal/importer/rules.go:239-252 | a move that is no half of a loan is typed by its own fields, in order: retired, released, youth promotion without a fee, free at a disclosed fee of zero, and otherwise permanent |
| Classify.LoansByTheMoves | apps/football-svc/internal/importer/rules.go:200-231 | a return ends an earlier loan and a loan is a free move between real clubs whose first later departure leads straight back without a fee within two years and sixty days, and that itself ends none |
| Classify.FeesInHundredths | apps/football-svc/internal/importer/rules.go:234-258 | a return costs nothing, another disclosed fee is stored in hundredths, and an undisclosed one stays undisclosed |
| Classify.SortedIsStable | apps/football-svc/internal/importer/rules.go:201-202 | the sorted history is a permutation in date order that keeps each day's order |
| Classify.StableSortIsUnique | apps/football-svc/internal/importer/rules.go:202 | nothing else is a stable sort of the same moves |
| Classify.FindReversal | apps/football-svc/internal/importer/rules.go:213-229 | the scan with breaks finds a return exactly when the first later departure from the destination goes back without a fee within 790 days |
| Classify.MarkLoans | apps/football-svc/internal/importer/rules.go:205-231 | the marked loans and returns are exactly the specified ones, although a loan excludes returns and a return is defined by a loan |
| Classify.LoansAndReturnsPairUp | apps/football-svc/internal/importer/rules.go:219-223 | every loan is ended by exactly one return inside the window and every return ends an earlier loan |
| Classify.BuyBackIsNoLoan | apps/football-svc/internal/importer/rules.go:192-199 | a sale bought back for a fee stays two plain moves |
| Classify.SettledAfterTheWindow | apps/football-svc/internal/importer/rules.go:216-218 | once the window after a move has passed, later history cannot change its kind |
| Classify.ArrivalOrderIsIrrelevant | apps/football-svc/internal/importer/rules.go:200-203 | only the order of moves within one day can matter |
| TransferMergeProofs.SecondRunChangesNothing | apps/football-svc/internal/importer/importer.go:766-905 | running the step again, rows in any order, creates, adopts and removes nothing and leaves the same rows and references |
| TransferMergeProofs.NoTwoMovesShareARow | apps/football-svc/internal/importer/importer.go:816-845 | from injective references, references stay injective and every source move has one |
| TransferMergeProofs.EveryMoveIsStored | apps/football-svc/internal/importer/importer.go:792-878 | every source move of a known player with a club in the dataset has a row under its reference with the move's date, kind and fee, the local clubs of both its ends in their places, and the season of the date or else the one the row had; the row is the player's unless a reference from before led to somebody else's |
| TransferMergeProofs.AnotherPlayersRow | apps/football-svc/internal/importer/importer.go:866-874 | a concrete reference to another player's row, which is corrected and stays that player's |
| TransferMergeProofs.NoNeedlessRow | apps/football-svc/internal/importer/importer.go:815-840 | a move without a usable reference goes to a row entered by hand for the same player and clubs within a week if there is one, and to a new one only when every such row belongs to another move |
| TransferMergeProofs.NewRowsAreMoves | apps/football-svc/internal/importer/importer.go:798-813 | every new row is a source move of a known player with a club in the dataset, said with the source's own fields |
| TransferMergeProofs.ReportIsRight | apps/football-svc/internal/importer/importer.go:826-843 | each source move is counted as created, adopted or updated, and the rows that came and went are as many as reported |
| TransferMergeProofs.EveryMoveIsInPlace | apps/football-svc/internal/importer/importer.go:844-878 | a row that a run has written needs no further correction from the same move |
| TransferMergeProofs.OtherRowsAreUntouched | apps/football-svc/internal/importer/importer.go:887-902 | a row without a reference is left alone, unless it is an unreferenced placeholder arrival of a matched player, and then it is removed |
| TransferMergeProofs.NoOpeningIsLeft | apps/football-svc/internal/importer/importer.go:887-897 | after a run no placeholder arrival without a reference is left |
| TransferMergeProofs.NewRowsAreReferenced | apps/football-svc/internal/importer/importer.go:839-844 | every row a run creates has a reference |
| TransferMergeProofs.OldReferencesStay | apps/football-svc/internal/importer/importer.go:821-828 | a row that had a reference keeps one: adoption never takes it |
| TransferMergeProofs.MergeAllTracks | apps/football-svc/internal/importer/importer.go:789-846 | what the merge loop has planned, claimed and remembered after any prefix of the moves |
| TransferMergeProofs.SavedIsEverything | apps/football-svc/internal/importer/importer.go:161-170 | saving only changed references leaves the stored table equal to the one in memory and writes no key twice |
| TransferMerge.Merge.ImportTransfers | apps/football-svc/internal/importer/importer.go:766-905 | rows, references and counters after the step, as the functional specification has them |
| TransferMerge.Merge.ImportPlayer | apps/football-svc/internal/importer/importer.go:798-846 | one player's history: sides outside the dataset and repeated keys are skipped |
| TransferMerge.Merge.Resolve | apps/football-svc/internal/importer/importer.go:816-844 | a present reference, else the first row to adopt, else a new row |
| TransferMerge.Merge.FindAdoptable | apps/football-svc/internal/importer/importer.go:820-831 | the first unclaimed, unreferenced row of the player with the same clubs within a week |
| TransferMerge.Merge.Remember | apps/football-svc/internal/importer/importer.go:161-170 | an unchanged reference is not recorded again |
| Matching.DistinctClubsIff | apps/football-svc/internal/importer/importer.go:371-407 | distinct source clubs get distinct rows, whatever the clubs are called and the table holds, exactly when no club that is new comes before one that is known |
| Matching.DistinctPlayersIff | apps/football-svc/internal/importer/importer.go:534-581 | the same of players |
| Matching.KnownFirstIsSafe | apps/football-svc/internal/importer/importer.go:386-404 | with every known source before the new ones, rows are distinct whatever fits whatever |
| Matching.NewNamesakeTakesTheRow | apps/football-svc/internal/importer/importer.go:386-407 | a concrete table of clubs in which a new club and a known one end up on one row |
| Matching.AllOrNoneKnown | apps/football-svc/internal/importer/importer.go:539-581 | a first import, and one where every reference is present, never share rows |
| Matching.SecondRunResolvesAlike | apps/football-svc/internal/importer/importer.go:386-392 | a second run resolves every source to the same row, creates nothing and records no reference |
| WholeImport.SecondImportChangesNothing | apps/football-svc/internal/importer/importer.go:96-119 | seasons, clubs, players and transfers one after the other, each on what the steps before it resolved: importing the same source again, with names and row orders in whatever shape, creates, adopts and removes nothing and leaves every table and reference as it was |
| WholeImport.LaterImportsChangeNothing | apps/football-svc/internal/importer/importer.go:72-129 | and so does importing it any number of times |
| WholeImport.FirstImportSucceeds | apps/football-svc/internal/importer/importer.go:72-129 | a first import into empty tables meets what these ask for and succeeds |
| WholeImport.EveryMoveArrives | apps/football-svc/internal/importer/importer.go:766-878 | after a whole import every source move is on record between the rows its clubs became, in the season of its day, under the row its player became unless a reference from before decided |
| WholeImport.EverySourceIsHere | apps/football-svc/internal/importer/importer.go:405-407 | every source club and player has a reference to a row of the table, and nothing that was there has gone |
| WholeImport.PlayerFollowsTheClub | apps/football-svc/internal/importer/importer.go:540-566 | a new player is looked for at the row its club became |
| WholeImport.PlaceholdersGo | apps/football-svc/internal/importer/importer.go:879-901 | the arrival written for a player entered by hand goes once the history has come, and any other transfer that is no source move stays as it was |
| WholeImport.SameRows | apps/football-svc/internal/importer/importer.go:386-407 | over the tables a first import left, clubs and then players, matched with the clubs found, resolve to the same rows |
| WholeImport.TransfersAreReady | apps/football-svc/internal/importer/importer.go:766-790 | the transfers read are those of players here before the run, so the transfer step finds what it needs |
| Matching.ClubFitsAreFree | apps/football-svc/internal/importer/importer.go:454-485 | what the club matching finds is an existing row nobody in the run has taken |
| Matching.PlayerFitsAreFree | apps/football-svc/internal/importer/importer.go:547-570 | and so is what the player matching finds |
| Matching.Resolver.ImportClubs | apps/football-svc/internal/importer/importer.go:378-407 | the loop over the clubs: a referenced row that still exists, else a match, else a new row |
| Matching.Resolver.ImportPlayers | apps/football-svc/internal/importer/importer.go:539-581 | the loop over the players |
| Matching.Resolver.Place | apps/football-svc/internal/importer/importer.go:394-406 | the counters, the taken row and the reference of one source |
| Matching.MatchClub | apps/football-svc/internal/importer/importer.go:454-485 | the only free club of that name, else the only free club of the country with a related name, else none |
| Matching.MatchIsDetermined | apps/football-svc/internal/importer/importer.go:470-483 | the answer does not depend on the order in which the index of names is visited |
| Matching.MatchIsFree | apps/football-svc/internal/importer/importer.go:455-468 | a match is an indexed club nobody in the run has taken |
| Matching.PlayerByTheRules | apps/football-svc/internal/importer/importer.go:547-570 | a player is matched exactly by the first of three rules with an unambiguous free answer: name and date of birth, name and club, a name nobody else shares |
| Matching.LongerNamesMatch | apps/football-svc/internal/importer/importer.go:471-483 | of a longer and a shorter name that agree up to a word, each finds the other's club, within the country or where none is known, unless it is taken |
| Matching.SameNameMatches | apps/football-svc/internal/importer/importer.go:465-468 | the only free club of the very name is the answer whatever its country |
| Matching.EverySourceIsCounted | apps/football-svc/internal/importer/importer.go:394-404 | each source is counted once, as matched or as created |
| Seasons.ImportServesEveryYear | apps/football-svc/internal/importer/importer.go:287-319 | unless a year of the range is blocked, an import succeeds, only adds seasons, keeps them disjoint, puts each around its own 15 August and leaves no year unserved whose label was free |
| Seasons.ImportFailsIff | apps/football-svc/internal/importer/importer.go:287-319 | the import of a range fails exactly when, in the table it starts from, one season ends on 14 August and another starts on 16 August of some year of the range |
| Seasons.OneFreeDayFails | apps/football-svc/internal/importer/importer.go:297-312 | two valid seasons with which it fails, for any year |
| Seasons.ImportYearFailsIff | apps/football-svc/internal/importer/importer.go:297-312 | fitting a year fails exactly when one season ends on 14 August and another starts on 16 August |
| Seasons.ImportYearKeeps | apps/football-svc/internal/importer/importer.go:294-317 | one year: a season there already, a new valid one, or a taken label |
| Seasons.ShrinkIgnoresOrder | apps/football-svc/internal/importer/importer.go:300-307 | the fitted edges do not depend on the order of the seasons |
| Seasons.ShrinkFits | apps/football-svc/internal/importer/importer.go:300-307 | the loop computes the tightest edges the neighbours leave |
| Seasons.DraftFits | apps/football-svc/internal/importer/importer.go:297-307 | the fitted season overlaps no other |
| Seasons.UnhinderedYear | apps/football-svc/internal/importer/importer.go:291-311 | a year that no season touches gets one from 1 July to 30 June under its own label; one that has a season at mid August gets none |
| Seasons.DaysOfTheYear | apps/football-svc/internal/importer/importer.go:294-296 | the three dates, counted by the months before them |
| Seasons.SecondImportAddsNothing | apps/football-svc/internal/importer/importer.go:291-296 | running the step again on what it left succeeds and adds nothing |
| Seasons.SeasonOn | apps/football-svc/internal/importer/importer.go:278-285 | finds a season containing the date exactly when there is one |
| Seasons.OneSeasonPerDay | apps/football-svc/internal/importer/importer.go:278-285 | among valid seasons it is the only one |
| Seasons.SeasonTable.FitBetweenNeighbours | apps/football-svc/internal/importer/importer.go:297-307 | the shrink loop as a function of the seasons |
| Seasons.SeasonTable.ImportSeasons | apps/football-svc/internal/importer/importer.go:287-319 | the step over a range of years; a failure leaves the table as it was |
| CurrentClub.CurrentClubFollowsHistory | apps/football-svc/internal/repository/transfer_repository.go:110-170 | over every interleaving of creations, checks, recordings and corrections, the current club is the destination of the last-recorded transfer of the greatest date, and the moves that changed it form a chain with dates that never go back |
| CurrentClub.RunKeeps | apps/football-svc/internal/repository/transfer_repository.go:118-164 | the invariant behind it holds after every run |
| CurrentClub.OnlyOneOfTwoRacersMoves | apps/football-svc/internal/repository/transfer_repository.go:118-133 | of two recordings that both passed the check from one club, the second is refused |
| CurrentClub.Registry.Create | apps/football-svc/internal/repository/player_repository.go:158-172 | a player starts with an arrival from nowhere, or as a free agent with none |
| CurrentClub.Registry.Record | apps/football-svc/internal/repository/transfer_repository.go:119-168 | an accepted move is always put on record, the club moves unless a later date is on record, and a changed origin is refused |
| CurrentClub.RecordPutsOnRecord | apps/football-svc/internal/repository/transfer_repository.go:135-164 | the same of the interleaved step: what is written to the log and to each player's club |
| CurrentClub.Registry.RecordTransfer | apps/football-svc/internal/service/transfer_service.go:56-147 | which inputs are refused and why, in the order of the checks, and the completed row that is recorded |
| CurrentClub.Registry.UpdateTransfer | apps/football-svc/internal/service/transfer_service.go:174-206 | which corrections are refused; only type, fee, currency and season change, and player, clubs and date stay |
| MarketValues.CurrentValueFollowsHistory | apps/football-svc/internal/repository/market_value_repository.go:43-121 | over every sequence of creations, recordings, same-day replacements, backfills and deletions, the current value and currency are the latest valuation's, or 0 when none remain |
| MarketValues.RecordKeeps | apps/football-svc/internal/repository/market_value_repository.go:50-74 | recording keeps every player in step |
| MarketValues.DeleteKeeps | apps/football-svc/internal/repository/market_value_repository.go:89-115 | deleting keeps every player in step |
| MarketValues.CreateKeeps | apps/football-svc/internal/repository/player_repository.go:174-184 | creating keeps every player in step |
| MarketValues.Market.CreatePlayer | apps/football-svc/internal/repository/player_repository.go:132-190 | an opening valuation behind a positive value |
| MarketValues.Market.RecordValue | apps/football-svc/internal/repository/market_value_repository.go:43-80 | insert or replace the day's figure, follow it unless something is dated later |
| MarketValues.Market.DeleteValue | apps/football-svc/internal/repository/market_value_repository.go:82-121 | only a valuation of the named player, and the fall back to the latest survivor |
| MarketValues.Market.ResetCurrent | apps/football-svc/internal/repository/market_value_repository.go:101-115 | the player row takes the latest surviving figure, or 0 in the currency it had |
| MarketValues.RecordPutsOnRecord | apps/football-svc/internal/repository/market_value_repository.go:50-74 | a figure is put on its day whatever is on record and becomes current unless a later day is |
| MarketValues.CreatePutsOnRecord | apps/football-svc/internal/repository/player_repository.go:132-190 | a positive opening value is current and on record on the day |
| MarketValues.DeleteTakesOneRow | apps/football-svc/internal/repository/market_value_repository.go:92-115 | exactly that row goes, and the player is left on the latest of the others, or on nothing |
| CoachSpells.AppointmentsStayOrderly | apps/football-svc/internal/repository/coach_spell_repository.go:50-107 | over every sequence of recordings: one open spell at most, none starts after it, closed spells end on or after their start, and the current club is the open spell's |
| CoachSpells.RecordKeeps | apps/football-svc/internal/repository/coach_spell_repository.go:72-101 | one recording keeps that for every coach |
| CoachSpells.OneAppointmentEndsTheOther | apps/football-svc/internal/repository/coach_spell_repository.go:72-82 | a new appointment ends the open one on its first day; a backdated spell leaves it and the club alone |
| CoachSpells.Desk.RecordSpell | apps/football-svc/internal/repository/coach_spell_repository.go:50-107 | the transaction, with a failure rolling the closing back |
| CoachSpells.RecordPutsOnRecord | apps/football-svc/internal/repository/coach_spell_repository.go:56-103 | what is accepted, which open spells end and when, the spell put on record, and the coach's club |
| CoachSpells.RefusedBecause | apps/football-svc/internal/repository/coach_spell_repository.go:50-82 | the reason given for each refusal |
| ArticleBody.CheckBody | apps/football-svc/internal/service/article_body.go:77-100 | accepts exactly the acceptable bodies; words, minutes and excerpt are those of the whole tree; a refusal names the first fault of the walk |
| ArticleBody.FitsIffAcceptable | apps/football-svc/internal/service/article_body.go:109-176 | no fault on the walk means exactly: every node satisfies its rule, depth at most 12, at most 20000 nodes and 200000 runes |
| ArticleBody.AcceptableIff | apps/football-svc/internal/service/article_body.go:77-121 | acceptable exactly with at most 20000 nodes, none deeper than twelve, 200000 runes, and every node right by its own rule |
| ArticleBody.LeafCounts | apps/football-svc/internal/service/article_body.go:122-132 | the runes, words and text of a node without children |
| ArticleBody.BranchCounts | apps/football-svc/internal/service/article_body.go:109-121 | one child more adds its own nodes, runes, words and text |
| ArticleBody.BodyWalker.Walk | apps/football-svc/internal/service/article_body.go:109-176 | the early-exit recursion with its counters equals a scan of the nodes in visiting order |
| ArticleBody.BodyWalker.Enter | apps/football-svc/internal/service/article_body.go:110-132 | the checks at one node, before its children |
| ArticleBody.CheckNode | apps/football-svc/internal/service/article_body.go:121-162 | a node passes exactly when it satisfies its type's rule, and a fault names a rule it breaks |
| ArticleBody.WhatEachTypeNeeds | apps/football-svc/internal/service/article_body.go:109-190 | which nodes pass, type by type, said on their attributes |
| ArticleBody.ParagraphsAreVisited | apps/football-svc/internal/service/article_body.go:160-176 | the excerpt is drawn from the trimmed texts of the paragraph nodes visited |
| ArticleBody.CheckMark | apps/football-svc/internal/service/article_body.go:178-186 | the same for a mark |
| ArticleBody.FaultIsReal | apps/football-svc/internal/service/article_body.go:109-176 | a body with a first fault does not fit |
| ArticleBody.ExcerptEndsAtAWord | apps/football-svc/internal/service/article_body.go:239-252 | a preview is the whole opening, or at most 281 runes of it that stop inside a word only when there is no gap to stop at |
| Slug.SlugWords | apps/football-svc/internal/service/article_body.go:258-289 | the loop computes the title's words joined by dashes, shortened |
| Slug.SlugIsNeat | apps/football-svc/internal/service/article_body.go:258-289 | at most 61 runes, no leading, trailing or doubled dash, empty only for a title without letter or digit |
| Slug.ShortenedIsPrefix | apps/football-svc/internal/service/article_body.go:269-276 | whole when it fits, otherwise a beginning that stops inside a word only when its last dash lies in the first twenty bytes |
| Slug.SuffixRoundTrip | apps/football-svc/internal/service/article_service.go:527-542 | the suffix is recovered from the address exactly when it has six bytes and no dash |
| Slug.KeptSnoc | apps/football-svc/internal/service/article_body.go:258-290 | marks and apostrophes vanish without parting a word |
| ArticleRuns.PublishedIsVetted | apps/football-svc/internal/service/article_service.go:210-389 | in every interleaving of reads and whole-row writes, a published row was last stored by an administrator and its content is what they supplied or had read |
| ArticleRuns.TableIsAlwaysSound | apps/football-svc/internal/service/article_service.go:452-499 | in every interleaving, stored content is safe and its derived facts right, a published row has a publish time, and an address names one article |
| ArticleRuns.SuffixNeverChanges | apps/football-svc/internal/service/article_service.go:232-236 | in every interleaving the random half of an address never changes |
| ArticleRuns.AddressIsPermanent | apps/football-svc/internal/service/article_service.go:232-236 | once first published, address and first publication never change again as long as no first publication overtakes a write |
| ArticleRuns.SequentialAddressIsPermanent | apps/football-svc/internal/service/article_service.go:310-314 | one call at a time, they never change at all |
| ArticleRuns.WriteKeepsAddressIff | apps/football-svc/internal/repository/article_repository.go:123-143 | a write keeps them exactly when its row was read after the first publication, or it publishes at the same instant under the same address |
| ArticleRuns.OvertakenEditUnpublishes | apps/football-svc/internal/repository/article_repository.go:123-143 | an editor's write read before and stored after a publication takes the article down and forgets it was published |
| ArticleRuns.RunKeeps | apps/football-svc/internal/repository/article_repository.go:108-148 | the invariant behind these holds after every run |
| ArticleRuns.PublishingIsAnAdministrators | apps/football-svc/internal/service/article_service.go:271-314 | only an administrator's decision is a published row |
| ArticleRuns.LoneIsARun | apps/football-svc/internal/service/article_service.go:244-292 | a call alone is its read and its write in a row |
| ArticleRuns.LoneDeletionIsARun | apps/football-svc/internal/service/article_service.go:394-410 | a deletion on its own removes the one row exactly when its writer may |
| ArticleRuns.CreationStores | apps/football-svc/internal/service/article_service.go:167-208 | a creation stores a draft of the writer's with the content the input stands for, or nothing |
| Articles.ApplyInput | apps/football-svc/internal/service/article_service.go:454-499 | the content of an input, refused exactly when the specification refuses it |
| Articles.PreparedIsDecent | apps/football-svc/internal/service/article_service.go:454-499 | what is accepted is within bounds, safe and has its derived facts right |
| Articles.PreparedStandsFor | apps/football-svc/internal/service/article_service.go:454-499 | the stored title, subtitle, cover, caption, body and topics are the writer's own, each in its place; and an input is accepted exactly when content that stands for it is within the bounds |
| Articles.InsertionWrites | apps/football-svc/internal/service/article_service.go:167-208 | a new row is a draft of the writer's with the content the input stands for, at a free address made of its title and a drawn suffix |
| Articles.EditWrites | apps/football-svc/internal/service/article_service.go:210-242 | an edit writes the content and, before the first publication, the address of the new title, and nothing else |
| Articles.SubmitWrites | apps/football-svc/internal/service/article_service.go:244-324 | what a submission writes, a writer's and an administrator's |
| Articles.SendingBackWrites | apps/football-svc/internal/service/article_service.go:326-361 | the trimmed note, the reviewer and the time, and nothing else |
| Articles.WithdrawalWrites | apps/football-svc/internal/service/article_service.go:363-392 | a draft again, without a time, and no longer submitted if it was in review |
| Articles.ReadyIff | apps/football-svc/internal/service/article_service.go:438-450 | ready exactly with something in the title and a word in an acceptable body |
| Articles.TopicsAreNormalised | apps/football-svc/internal/service/article_service.go:523-525 | a topic is the same with or without its leading sign, in any case and spacing |
| Articles.NormaliseTags | apps/football-svc/internal/service/article_service.go:503-521 | each topic once in first order, refused when one is too long or there are too many |
| Articles.TagsAreTheTopics | apps/football-svc/internal/service/article_service.go:503-515 | exactly the non-empty topics named |
| Articles.DecisionsFollowTheDiagram | apps/football-svc/migrations/000010_articles.up.sql:8-19 | an operation succeeds exactly when the review diagram has an arrow for it and the article qualifies, and it then follows the arrow |
| Articles.PublicationTime | apps/football-svc/internal/service/article_service.go:295-314 | which time an article is published at, never past, and that its first publication is dated once |
| Articles.FreeOrConflict | apps/football-svc/internal/service/article_service.go:190-207 | a draft goes to a free address with a drawn suffix; there is none exactly when all three draws are taken |
| Articles.ArticleService.Create | apps/football-svc/internal/service/article_service.go:167-208 | the table and answer of creation from a count read before, or why it is refused |
| Articles.ArticleService.CountByAuthor | apps/football-svc/internal/repository/article_repository.go:150-156 | how many articles the author has |
| Articles.ArticleService.Update | apps/football-svc/internal/service/article_service.go:210-242 | the table and answer: who may edit in which state, and the address following the title until first publication |
| Articles.ArticleService.Submit | apps/football-svc/internal/service/article_service.go:244-292 | the table and answer of submitting, by an editor or an administrator |
| Articles.ArticleService.Publish | apps/football-svc/internal/service/article_service.go:295-324 | publishing, scheduling and keeping the requested time |
| Articles.ArticleService.RequestChanges | apps/football-svc/internal/service/article_service.go:326-361 | the table and answer of sending back |
| Articles.ArticleService.Withdraw | apps/football-svc/internal/service/article_service.go:363-389 | the table and answer of withdrawing |
| Articles.ArticleService.Delete | apps/football-svc/internal/service/article_service.go:394-407 | removes exactly that row, and exactly when the caller may |
| Articles.ArticleService.GetLive | apps/football-svc/internal/repository/article_repository.go:60-68 | finds an article exactly when one is live at the address, without the desk's notes |
| Articles.ArticleService.Save | apps/football-svc/internal/repository/article_repository.go:123-143 | the whole-row write: no such row and a taken address are errors |
| GrantCache.NoAnswerIsStalerThanTheTtl | apps/football-svc/internal/service/football_service.go:60-94 | in every interleaving of misses, writes and invalidations, an answer is what the table said less than five seconds before the clock reading it was decided with, or later |
| GrantCache.AnswersAreCurrentIff | apps/football-svc/internal/service/football_service.go:72-94 | over every run, each answer is the table's or an invalidation concerning it is still to come, exactly when no step stores an answer that a change and its invalidation have both overtaken |
| GrantCache.AnswersAreCurrent | apps/football-svc/internal/service/team_editor_service.go:95-116 | in particular when no grant change falls between a miss's read and its store |
| GrantCache.OvertakenMissIsStale | apps/football-svc/internal/service/football_service.go:77-84 | any editor whose miss is overtaken by a revocation and its invalidation is let through afterwards |
| GrantCache.UserEntryIsExact | apps/football-svc/internal/service/football_service.go:98-106 | without NULs in ids, the prefix test selects exactly that user's entries |
| GrantCache.TeamEntryIsExact | apps/football-svc/internal/service/football_service.go:111-120 | and the suffix test exactly that club's |
| GrantCache.KeysAreDistinct | apps/football-svc/internal/service/football_service.go:67 | two questions never share a cache entry |
| GrantCache.NulBreaksExactness | apps/football-svc/internal/service/football_service.go:98-106 | with a NUL in an id the prefix test takes another user's entries along |
| GrantCache.InvalidateCurrent | apps/football-svc/internal/service/football_service.go:98-120 | an invalidation clears every entry it was outstanding for |
| GrantCache.StepCurrent | apps/football-svc/internal/service/identity_events.go:67-81 | every step but such a store keeps the cache current or about to be invalidated |
| GrantCache.LoneIsARun | apps/football-svc/internal/service/football_service.go:62-94 | a question answered with nothing in between is its four steps in a row |
| GrantCache.LoneIsFaithful | apps/football-svc/internal/service/football_service.go:62-94 | against a faithful cache it is answered as the table says and leaves the cache faithful |
| GrantCache.HowAQuestionIsAnswered | apps/football-svc/internal/service/football_service.go:62-94 | no without a user or a club, else an unexpired answer from the cache, the failure of the read, or the table's answer, kept five seconds beside all that has not expired |
| GrantCache.InvalidationDropsExactly | apps/football-svc/internal/service/football_service.go:98-120 | of real ids, the entries of that user or club go and all others stay as they are |
| GrantCache.WhatChangesWrite | apps/football-svc/internal/repository/team_editor_repository.go:69-92 | who manages what after a grant, a revocation, or the end of a user or a club |
| GrantCache.OneSide | apps/football-svc/internal/service/football_service.go:179-205 | the answer about a side is the permission, a failed read is passed on, and a missing side changes nothing |
| GrantCache.TwoSides | apps/football-svc/internal/service/football_service.go:179-205 | the second side is asked only if the first said no |
| GrantCache.Authorizer.ManagesTeam | apps/football-svc/internal/service/football_service.go:62-94 | answer and cache of one question, and what a failed read leaves |
| GrantCache.Authorizer.InvalidateUser | apps/football-svc/internal/service/football_service.go:98-106 | drops exactly the entries the prefix test selects |
| GrantCache.Authorizer.InvalidateTeam | apps/football-svc/internal/service/football_service.go:111-120 | drops exactly the entries the suffix test selects |
| GrantCache.Authorizer.RequireTeam | apps/football-svc/internal/service/football_service.go:141-161 | decided by the role, or by the answer of the cache or the table, or refused because neither can be read |
| GrantCache.Authorizer.RequireEitherTeam | apps/football-svc/internal/service/football_service.go:179-205 | the same over the sides of a move, in order, up to the first that is managed or cannot be read |
| GrantCache.SidesByTheTable | apps/football-svc/internal/service/football_service.go:173-205 | against a faithful cache and a readable table, exactly whoever holds a grant for one of the sides is let through |

## Left out

- HTTP, JSON, CORS, cookie attributes, logging, metrics, mail, captcha, OAuth, password hashing and JWT signing: plumbing and library calls.
- Failures of the database itself, isolation levels and drivers: a statement or a transaction is one atomic step.
- Several replicas with a cache each, and event delivery: nothing strong is promised there.
- The promise slot of `refreshOnce` and the interceptor's retry of the original request: a tab runs one refresh at a time by assumption.
- Legacy body tokens in a browser: the tabs of `BrowserTabs` present the cookie.
- Importing competitions, valuations, season statistics and entries, and `inChunks`: one statement per batch is modelled as one over the whole list.
- The spelling rules of `fold` and `clubKey`, and malformed dates: names arrive folded and dates well-formed. The columns an import copies onto clubs and players are not modelled.
- Plain CRUD services, search, paging, tactics boards, notes and the games dataset: easy members only.
- Deleting transfers and spells, which the code deliberately does not rewind from: no such action in `CurrentClub` and `CoachSpells`.
- TransferMergeProofs.SecondRunChangesNothing: assumes every existing transfer row read belongs to a player matched in the first run, which is how the rows are selected, and starts from injective references.
- TransferMergeProofs.NoTwoMovesShareARow: starts from injective transfer references; from others the merge cannot make them so.
- TransferMergeProofs.EveryMoveIsStored: of moves that a history lists twice with the same date and ends it speaks of the first, as the program stores the first.
- RateLimit.HonouringRetryAfterSuffices: over the reals; rounding of `float64` is not modelled.
- ArticleRuns.AddressIsPermanent: holds under a condition because it is false without it; see `OvertakenEditUnpublishes`.
- GrantCache.NoAnswerIsStalerThanTheTtl: ids contain no NUL, as UUIDs do not.
- Seasons.ImportServesEveryYear: years are not negative.
- BrowserTabs.TwoTabsStaySignedIn: no retry starts before the winner's cookie has landed, which the 300 ms delay makes likely and nothing makes certain (without it the claim is false, `HastyRetrySignsOut`); no other handler exchanges, revokes or deletes an unexpired token of the raced session (without it the claim is false, `LogoutSignsOut`); and the token does not expire inside the grace.
- BrowserTabs.PlayKeepsRace: the same two conditions on the course.
- RateLimit.AdmissionBound: for limits that refill while idle; `AdmissionBoundAnyLimit` bounds the others.
- Matching.DistinctClubsIff: quantifies over the names and the table; for one given table it may also go well in another order.
- CurrentClub.Registry.RecordTransfer: whether the caller manages a side of the move is a parameter, decided in `GrantCache`.
- CurrentClub.Registry.UpdateTransfer: the row is named by its place in the log.
- Articles.ArticleService.Create: the count is a parameter read before, so racing creations can pass the limit, as in the program.
- GrantCache.AnswersAreCurrent: holds under a condition that is sufficient; `AnswersAreCurrentIff` has the exact one.
- GrantCache.AnswersAreCurrentIff: ids contain no NUL, as UUIDs do not.
- TabLimit.TwoTabsAtMost: the raced token does not expire inside the grace, and the courses are the timely ones, as for `TwoTabsStaySignedIn`.
- WholeImport.SecondImportChangesNothing: covers seasons, clubs, players, transfers and references; every transfer belongs to a player of the table, as its foreign key says, and nobody edits in between.
