# Verified models of the TypeDB drivers

Dafny models of the parts of the TypeDB drivers where several functions, retries or
representations have to agree, with proofs for all inputs, all networks and all runs.
`dafny verify dfyconfig.toml` checks the project.

## What is modelled

**The HTTP driver's cluster failover** (`http-ts`). `TypeDBHttpDriver` keeps a token and a
current origin. A call makes rounds while it is answered 421 (section 15.5.20 of RFC 9110); a
round tries the current origin, follows a redirect, and falls back to the other configured
origins; an attempt on one origin signs in, sends the request with a bearer token (section 2.1
of RFC 6750), and on 401 (section 15.5.2 of RFC 9110) signs in and sends once more.
`HttpModel` gives each operation as a function from a state to a result and a new state; the
state holds the two fields and the history of the network. The network is an arbitrary
function of the whole history, so it may be any server behaviour, including one that reacts to
the driver. `HttpDriver` is the object with its loops and early exits, each method proved equal
to its function. `HttpVisits`, `HttpRounds`, `HttpGuarantees`, `HttpInvariants`,
`HttpMisdirection`, `HttpSessions` and `HttpAvailability` hold the laws. They read the events of the
history by the fields of fetches and answers, not through the functions of the model.

**The primary replica of a database** (`nodejs`). `ReplicaModel` and `ReplicaDriver` do the same
for listing replicas, seeking the primary, running tasks on any replica or on the primary, and
the database manager on top; `ReplicaLaws`, `ReplicaManager` and `ReplicaHistory` hold the laws.

**Durations, datetimes and JSON values** (`csharp`). `Duration` prints and reads ISO 8601
durations with the 32- and 64-bit fields and the double arithmetic made explicit; regular
expression search is modelled as leftmost matching for all texts. `DurationText` says what texts
read as, `DurationRoundTrip` what is printed and what comes back. `Binary64` says what is
assumed of doubles, defines round-to-nearest-even with 53 bits, and proves that it meets the
assumption; `NanosecondLoss` says for that rounding which nanoseconds are lost. `Fractions` and `Datetime` treat the nine digits after the second. `JsonEquality`
compares trees.

**Rows given to a query** (`c`, `rust`, `csharp`). `GivenRows` is the builder object and the law
of its runs; `GivenRowsForms` are the two client forms that drive it.

## Where the code and its description part

- The comment above `PRIMARY_FAILOVER_RETRIES` says that a 421 which survives redirects and fallback
  waits and retries. A 421 that names no other origin counts as no response and does not survive. A
  round is retried exactly if the visit that speaks for it was answered 421 twice, at the origin
  visited and at the one it named (`HttpMisdirection.RetriedIff`). While no server is the primary, the
  call therefore waits exactly if some server that is up names another that is up, and otherwise fails
  at once with the connection error (`HttpMisdirection.NoPrimaryRetriedIff`), as it always does when
  the 421s have no body (`HttpMisdirection.NowhereToGoExample`).
- After an unreachable start, a non-ok answer of a fallback origin can be returned while the driver
  ends on a later, dead origin (`HttpGuarantees.UnpinnedExample`).
- A refused sign-in ends the round, but the call returns it at once exactly if its status is not 421
  (`HttpMisdirection.RefusalRetriedIff`); otherwise credentials that nobody accepts are sent four
  times (`HttpMisdirection.RefusalRetriedExample`).
- A translated entry whose public origin is the internal address of an earlier one is hidden by it
  (`Origins.HiddenEntryExample`).
- The errors that `runOnAnyReplica`, `runOnPrimaryReplica` and `seekPrimaryReplica` throw themselves
  are built from a text and carry no message template, so no caller takes them for a connection
  failure: a failsafe run that reaches no replica ends there and never looks for the primary
  (`ReplicaLaws.FailsafeLaw`).
- Trailing zeros of printed duration seconds are never trimmed, because the text ends in `S`
  (`DurationRoundTrip.FormatSecondsKeepsZeros`).
- Durations can lose a nanosecond: 4.1 seconds read back as 4.099999999
  (`DurationRoundTrip.FourPointOneSeconds`). Negative fields print as nothing. Exactly which durations
  survive is a test on whole numbers (`DurationRoundTrip.RoundTripExactly`).
- `Datetime` accepts 10^9 nanoseconds and more; such values never survive printing and reading
  (`Datetime.RoundTripIff`).

## Model

| member | source | states |
|---|---|---|
| Origins.FirstMatch | http-ts/src/params.ts:63-75 | the search of configured entries returns the first that answers to a host and port by its internal or public address, or none if none does |
| Origins.ResolveStableIff | http-ts/src/params.ts:63-78 | on addresses some entry answers to, resolving twice is resolving once for all of them exactly when no entry is hidden behind an earlier one with another origin |
| Origins.BasicNeverHidden | http-ts/src/params.ts:65-69 | plain addresses never hide one another, so there resolution is always idempotent on matched addresses |
| Origins.UnmatchedStableIff | http-ts/src/params.ts:63-87 | an address no entry answers to resolves to an origin with a scheme; resolving again changes it exactly if the scheme turned it into the host of an entry with another origin, which it never does for canonical hosts |
| Origins.ResolveLaw | http-ts/src/params.ts:52-87 | an address resolves to the first configured server known by its host, else to itself if it has a scheme, else to itself behind the protocol of the first configured origin, else behind https |
| Origins.HiddenEntryExample | http-ts/src/params.ts:71-75 | a configuration in which one address resolves to one server and then to another |
| HttpDriver.TypeDBHttpDriver.constructor | http-ts/src/index.ts:87-89 | a new driver is on the first configured origin, without a token and with an empty history |
| HttpDriver.TypeDBHttpDriver.SwitchOrigin | http-ts/src/index.ts:329-332 | moving to an origin drops the token and changes nothing else |
| HttpDriver.TypeDBHttpDriver.SigninOnce | http-ts/src/index.ts:349-365 | one sign-in at the current origin; the token is stored exactly if the answer is ok and holds one, and every other answer is classified |
| HttpDriver.TypeDBHttpDriver.GetToken | http-ts/src/index.ts:338-343 | the stored token without a fetch, unless there is none or it is empty |
| HttpDriver.TypeDBHttpDriver.TryApiReq | http-ts/src/index.ts:261-284 | the attempt on one origin with at most one re-authentication |
| HttpDriver.TypeDBHttpDriver.SwitchToRedirectTarget | http-ts/src/index.ts:293-305 | consumes the body of the 421 and moves exactly if it names an origin other than the current one |
| HttpDriver.TypeDBHttpDriver.FollowMisdirected | http-ts/src/index.ts:286-291 | one further attempt at the redirect target, or no response |
| HttpDriver.TypeDBHttpDriver.TryFallbackOrigins | http-ts/src/index.ts:307-327 | the loop over configured origins with its early exits equals the recursive scan that all laws are about |
| HttpDriver.TypeDBHttpDriver.ApiReqOnce | http-ts/src/index.ts:232-259 | one round equals the function that all round laws are about, including the restored origin |
| HttpDriver.TypeDBHttpDriver.ApiReq | http-ts/src/index.ts:223-230 | a call equals the function that all call laws are about and keeps the driver invariant |
| HttpVisits.AttemptLaw | http-ts/src/index.ts:261-284 | one to four fetches for this call, all to the current origin, which does not change; the result is what the last fetch says; only the last can accept the request or refuse the credentials, and a refusal has the code, text and status that the server gave; an unreachable server, an unexpected reply and the four transient codes count as lost contact |
| HttpVisits.AttemptProtocol | http-ts/src/index.ts:261-284 | a sign-in happens only without a token or after a 401; a request carries the held token or the one just issued; a 401 ends an attempt only if it is the second |
| HttpVisits.VisitLaw | http-ts/src/index.ts:234-241 | an attempt and its redirect: their record agrees with the history, the driver ends on the origin that answered last, a body is read exactly after the 421 that the visit began with, and an accepting or fatal fetch is the last event |
| HttpVisits.RedirectLaw | http-ts/src/index.ts:293-305 | a 421 leads on exactly if its body has a code, a message and an address that stands for another origin, and then to that origin |
| HttpRounds.Candidates | http-ts/src/index.ts:308-312 | the origins a round falls back to are the configured ones not yet tried, and no others |
| HttpRounds.RoundLaw | http-ts/src/index.ts:232-259 | the current origin is visited first and then the untried configured origins in order, stopping exactly at an ok response or a fatal sign-in; the answer is that outcome, else the first visit's response, else the latest response, else the connection error; and the exit origin is determined by the visits |
| HttpRounds.RoundLogged | http-ts/src/index.ts:232-327 | every event of a round belongs to its visits, every visit's record agrees with the history, every response that a visit ends with is unread, and there are at most 8(n+1) fetches |
| HttpGuarantees.ExhaustiveFailure | http-ts/src/index.ts:232-259 | the driver's own connection error is returned exactly when no visit had an outcome; then every configured origin was contacted and each visit shows lost contact or a 421 that led nowhere |
| HttpGuarantees.ExitPinning | http-ts/src/index.ts:242-258 | a returned response is the unread answer to a request of this round; the driver ends on its sender if it is ok or came from the first visit, and otherwise where the last visit ended |
| HttpGuarantees.UnpinnedExample | http-ts/src/index.ts:247-256 | a network in which the answer comes from one origin and the driver ends on another |
| HttpGuarantees.RoundEnds | http-ts/src/index.ts:232-327 | in a round an accepted request and a non-transient sign-in error are the last event and are returned unchanged, and no transient error is ever returned |
| HttpGuarantees.CallRounds | http-ts/src/index.ts:223-230 | a call is one to four rounds with a wait between, and returns the first result that is not 421, or the fourth |
| HttpGuarantees.CallLaw | http-ts/src/index.ts:223-327 | in a whole call at most one request is accepted, it is the last event and its response is returned; no HDR2, SRV14, CSV8 or CSV9 is returned; a returned body was never consumed |
| HttpGuarantees.CallCost | http-ts/src/index.ts:223-327 | at most 32(n+1) fetches and three waits for n configured origins |
| HttpMisdirection.OneRoundIff | http-ts/src/index.ts:223-230 | a call is over after one round exactly if that round does not end in a 421; otherwise it waits and makes another |
| HttpMisdirection.RetriedIff | http-ts/src/index.ts:223-305 | a round ends in a 421 exactly if a sign-in was refused with that status, or nothing decided it and the visit that speaks for it, the first or else the last with a response, got a 421 from the origin visited and from the one it named |
| HttpMisdirection.UnservedRetriedIff | http-ts/src/index.ts:223-327 | if no visit was served, the round is retried exactly if some visit was misdirected twice |
| HttpMisdirection.UnfollowedMisdirectionEnds | http-ts/src/index.ts:286-291 | if every attempt is answered 421, the call waits exactly if one of them named another origin, and otherwise fails after one round without waiting |
| HttpMisdirection.NoPrimaryRetriedIff | http-ts/src/index.ts:50-52 | on a network where every server is down or answers 421, a call waits exactly if the current or a configured origin is up and names another that is up; otherwise it fails after one round with the connection error |
| HttpMisdirection.NoPrimaryCall | http-ts/src/index.ts:223-230 | on such a network, with a configured origin that leads on, the call waits three times and returns a 421 |
| HttpMisdirection.NowhereToGoExample | http-ts/src/index.ts:286-305 | on the network that answers every request 421 without a body, every call from a state with the driver invariant fails after one round |
| HttpMisdirection.RefusalRetriedIff | http-ts/src/index.ts:223-230 | a refused sign-in ends the round with its error, and the call too exactly if its status is not 421 |
| HttpMisdirection.RefusalRetriedExample | http-ts/src/index.ts:223-230 | a network on which a call makes four sign-ins with three waits between and then returns the refusal |
| HttpInvariants.ApiReqKeepsInvariant | http-ts/src/index.ts:223-365 | every call keeps the invariant on tokens and origins, whatever redirects, fallbacks and refreshes happen in it |
| HttpInvariants.ReachableInvariant | http-ts/src/index.ts:82-89 | after any sequence of calls the stored token is that of the latest successful sign-in, which was at the current origin; every request carried such a token; every fetch was answered by the network; and every origin contacted was configured or advertised by an earlier 421 |
| HttpInvariants.TokenBinding | http-ts/src/index.ts:261-284 | every token sent to an origin was issued by an earlier sign-in at that same origin |
| HttpSessions.SessionKept | http-ts/src/index.ts:338-358 | after a call answered ok the driver is on the origin that answered and holds the token it sent; unless that is empty the next call begins with a request that carries it |
| HttpSessions.AttemptToken | http-ts/src/index.ts:261-284 | an attempt replaces the token by those it is issued and otherwise keeps it, even after a 401 that cannot be refreshed |
| HttpAvailability.Available | http-ts/src/index.ts:223-327 | after any sequence of calls, if one configured server signs in and accepts requests and no server refuses the credentials, a call returns an ok response in its first round, whatever the other servers do |
| HttpAvailability.RedirectedCall | http-ts/src/index.ts:286-305 | if the current origin sends requests on to a healthy server, configured or not, the call returns that server's ok response in its first visit and the driver ends there |
| ReplicaDriver.Cluster.FetchReplicas | nodejs/connection/TypeDBDatabaseImpl.ts:53-70 | the loop over servers equals the function that the listing law is about |
| ReplicaDriver.TypeDBDatabase.SeekPrimaryReplica | nodejs/connection/TypeDBDatabaseImpl.ts:160-171 | the search loop, replacing the list each time, equals its function |
| ReplicaDriver.TypeDBDatabase.RunOnPrimaryReplica | nodejs/connection/TypeDBDatabaseImpl.ts:141-158 | the retry loop equals its function, and a primary is known whenever it reads one |
| ReplicaDriver.TypeDBDatabase.RunOnAnyReplica | nodejs/connection/TypeDBDatabaseImpl.ts:128-139 | the loop over replicas equals its function and leaves the list alone |
| ReplicaDriver.TypeDBDatabase.RunFailsafe | nodejs/connection/TypeDBDatabaseImpl.ts:118-126 | any replica, and the primary if that one says it is not |
| ReplicaDriver.TypeDBDatabaseManager.RunFailsafe | nodejs/connection/TypeDBDatabaseManagerImpl.ts:74-86 | the loop over servers with a fresh database object for the primary run equals its function |
| ReplicaModel.SeekPrimaryReplica | nodejs/connection/TypeDBDatabaseImpl.ts:160-171 | a search that succeeds returns the primary of the list it leaves behind |
| ReplicaLaws.PrimaryReplicaLaw | nodejs/connection/TypeDBDatabaseImpl.ts:80-84 | filter and reduce find no primary exactly if there is none, and otherwise the first of those with the highest term |
| ReplicaLaws.ListingLaw | nodejs/connection/TypeDBDatabaseImpl.ts:53-70 | servers are asked in order past unreachable and unknowing ones only; the first other answer is the result, or no connection after all; the held list is left alone |
| ReplicaLaws.SeekProtocol | nodejs/connection/TypeDBDatabaseImpl.ts:160-171 | a list with a primary or a failed list ends the search at once with that result; a list without one is followed by a wait |
| ReplicaHistory.RunsAreGenuine | nodejs/connection/TypeDBDatabaseImpl.ts:53-171 | in every listing, search, run and manager run, each list and each task result is what the named server answered at that moment |
| ReplicaHistory.FirstListWins | nodejs/connection/TypeDBDatabaseImpl.ts:53-70 | if a server lists the database and those before it are out of reach or lack it, its list is returned |
| ReplicaLaws.SeekEnds | nodejs/connection/TypeDBDatabaseImpl.ts:160-171 | a search ends with a list that has a primary, with a failed listing, or without connection after exactly all its lists |
| ReplicaLaws.PrimarySafety | nodejs/connection/TypeDBDatabaseImpl.ts:141-158 | every task of a primary run goes to the first highest-term primary of the list held at that moment |
| ReplicaLaws.PrimaryCost | nodejs/connection/TypeDBDatabaseImpl.ts:141-171 | at most ten tasks, and ten lists per task with ten more if no primary was known at the start |
| ReplicaLaws.PrimaryEnds | nodejs/connection/TypeDBDatabaseImpl.ts:145-157 | a task that succeeds or fails for good is the last event and gives the result, a retried one is followed by a wait, and a value comes only from the last task |
| ReplicaLaws.PrimaryFails | nodejs/connection/TypeDBDatabaseImpl.ts:141-171 | a run fails with the error of its last task or its last listing, or without connection after exactly ten tasks or a last search of exactly ten lists |
| ReplicaLaws.PrimaryRunLaw | nodejs/connection/TypeDBDatabaseImpl.ts:141-171 | the laws of a run on the primary together, as the manager's run relies on them |
| ReplicaLaws.SettledRun | nodejs/connection/TypeDBDatabaseImpl.ts:141-171 | once every listing names one primary that serves tasks, a primary run succeeds after at most one wrong attempt, however stale the held list is |
| ReplicaLaws.FailsafeLaw | nodejs/connection/TypeDBDatabaseImpl.ts:118-139 | replicas are tried in order past connection failures only; not-primary hands over to the primary run from that very state and no replica is tried otherwise after it; any other answer ends the run |
| ReplicaLaws.FailsafeCost | nodejs/connection/TypeDBDatabaseImpl.ts:118-171 | at most one task per replica and ten more, and at most 110 lists |
| ReplicaManager.ManagerLaw | nodejs/connection/TypeDBDatabaseManagerImpl.ts:74-86 | servers are tried once each in order until a success or a not-primary error; after the latter comes one listing, whose failure is returned, and then a run on the primary of that list, whose value or error is returned; otherwise all errors are reported in order |
| Binary64.NanosWithinOne | csharp/Common/Duration.cs:157-158 | parsing and multiplying with correct rounding gives the nanoseconds, below 2^52, or one less, and exactly them if and only if the product does not fall short |
| Binary64.WholeSecondsExact | csharp/Common/Duration.cs:157-158 | whole seconds come out exactly |
| Binary64.Round53IsCorrect | csharp/Common/Duration.cs:157-158 | round-to-nearest-even with 53 bits meets what is assumed of doubles |
| NanosecondLoss.LossIff | csharp/Common/Duration.cs:157-158 | with IEEE 754 rounding the product falls short exactly for the numbers that a test on the remainder of their 53-bit multiple names |
| Duration.Find | csharp/Common/Duration.cs:122-145 | the search finds the leftmost match of a run followed by its unit, and none exactly if there is no match |
| Duration.ReadDate | csharp/Common/Duration.cs:119-138 | the date fields found and summed step by step with 32-bit wrap-around, or the overflow of one |
| Duration.ReadTime | csharp/Common/Duration.cs:140-160 | the time fields found and summed step by step with 64-bit wrap-around, or the first error |
| Duration.Parse | csharp/Common/Duration.cs:95-163 | reading field by field equals the function that the round trip is about, for every text |
| DurationText.FieldsLaw | csharp/Common/Duration.cs:95-163 | what a text with any digits in its six fields, any of them absent, and anything behind a second T reads as: sums in the field widths, or the error of the first field that cannot be read |
| DurationText.DateOnlyLaw | csharp/Common/Duration.cs:114-138 | the same for a text without a T |
| DurationText.TotalWrapped | csharp/Common/Duration.cs:147-159 | hours, minutes and nanoseconds add up in 64 bits, wrapped once |
| DurationText.DecimalIff | csharp/Common/Duration.cs:157-157 | seconds are a number exactly if they are digits with at most one point among them |
| DurationText.DecimalText | csharp/Common/Duration.cs:95-163 | seconds with up to nine digits of fraction, behind any other fields, are read as their nanoseconds or one less, for every correct rounding |
| DurationText.DecimalAlone | csharp/Common/Duration.cs:154-159 | the same for a text of seconds alone |
| DurationText.DecimalExactly | csharp/Common/Duration.cs:154-159 | with IEEE 754 rounding one is lost exactly for the numbers of the whole-number test, however many of the nine digits are written |
| DurationText.BadSeconds | csharp/Common/Duration.cs:154-159 | seconds that are not a number are a format error |
| DurationText.NoLeadingP | csharp/Common/Duration.cs:97-100 | a text without a leading P is a format error |
| DurationRoundTrip.PrintedText | csharp/Common/Duration.cs:166-198 | the printed text: months below twelve behind years, minutes and seconds below sixty, nine digits of fraction or none, absent fields for zeros, and P0D for nothing |
| DurationRoundTrip.PrintedWithoutTime | csharp/Common/Duration.cs:166-189 | without positive nanoseconds only the date is printed, and P0D exactly if they are zero and there is none |
| DurationRoundTrip.DateRoundTrip | csharp/Common/Duration.cs:168-170 | printed years, months and days read back, negative ones as zero |
| DurationRoundTrip.FormatSecondsKeepsZeros | csharp/Common/Duration.cs:191-198 | the printed seconds always have nine digits of fraction |
| DurationRoundTrip.RoundTrip | csharp/Common/Duration.cs:95-198 | what every duration of the field widths reads back as, whatever is done with the decimal seconds |
| DurationRoundTrip.RoundTripIff | csharp/Common/Duration.cs:95-198 | a duration survives printing and reading exactly when no field is negative and its seconds are whole or their double product does not fall short |
| DurationRoundTrip.RoundTripWithinOne | csharp/Common/Duration.cs:95-198 | without negative fields months and days are restored, and nanoseconds too or one less, and exactly in whole seconds |
| DurationRoundTrip.RoundTripExactly | csharp/Common/Duration.cs:95-198 | with IEEE 754 rounding, what every duration reads back as, and that it survives exactly if no field is negative and its nanoseconds within the minute pass the whole-number test |
| DurationRoundTrip.FourPointOneSeconds | csharp/Common/Duration.cs:157-158 | with IEEE 754 rounding 4.1 seconds read back one nanosecond short, beside any months and days |
| DurationRoundTrip.Wrap32Law | csharp/Common/Duration.cs:107-132 | 32-bit sums and products are the number of that width congruent to the exact one |
| DurationRoundTrip.Wrap64Law | csharp/Common/Duration.cs:147-158 | the same in 64 bits |
| DurationRoundTrip.Weeks | csharp/Common/Duration.cs:102-108 | the week form, with any digits and perhaps a line feed at its end, is seven days a week wrapped to 32 bits, or an overflow |
| Fractions.FractionalEnd | csharp/Common/DatetimeTZ.cs:140-148 | the scan stops at the first character after the point that is not a digit, or at the end |
| Fractions.ExtractNanos | csharp/Common/DatetimeTZ.cs:135-154 | the first nine digits after the point, filled up with zeros, as a number below 10^9 |
| Fractions.NanosLaw | csharp/Common/DatetimeTZ.cs:149-153 | the nanoseconds are the number of the fraction at nine places, further digits cut off |
| Fractions.TruncateFractional | csharp/Common/DatetimeTZ.cs:159-180 | the text with its fraction cut to seven digits |
| Fractions.TruncatedParts | csharp/Common/DatetimeTZ.cs:159-180 | truncation keeps what surrounds the fraction and its first seven digits, and drops only the rest of its digits |
| Fractions.TruncateIdempotent | csharp/Common/DatetimeTZ.cs:159-180 | truncating twice is truncating once |
| Fractions.TruncationCommutes | csharp/Common/DatetimeTZ.cs:135-180 | reading after truncating is reading rounded down to 100 nanoseconds |
| Datetime.Parse | csharp/Common/Datetime.cs:70-106 | the loop and the reassigned parts give the nanoseconds of the text and the platform's reading of its truncation |
| Datetime.MakeLaw | csharp/Common/Datetime.cs:41-48 | accepted are exactly the years 1 to 9999, ticks included |
| Datetime.ParsedLaw | csharp/Common/Datetime.cs:99-105 | a text is refused exactly if the platform refuses its truncation, and otherwise gives its whole seconds since 1970 and its nanoseconds |
| Datetime.PrintedText | csharp/Common/Datetime.cs:112-123 | the printed text: the second that the ticks carry to, and unless the nanoseconds are zero a point and their nine digits or more without trailing zeros |
| Datetime.SecondOfTicks | csharp/Common/Datetime.cs:41-48 | below a second the ticks never move the printed second |
| Datetime.PrintedNanos | csharp/Common/Datetime.cs:116-120 | trimming nine digits and filling them up again gives the same nanoseconds |
| Datetime.RoundTripIff | csharp/Common/Datetime.cs:41-123 | printing and reading restores a datetime exactly when its nanoseconds are below a second |
| JsonEquality.AllFoundIff | csharp/Answer/JSON.cs:121-129 | equal counts and one-sided lookup of members are equality of the two maps |
| JsonEquality.EqualsIff | csharp/Answer/JSON.cs:121-252 | two trees are equal exactly when they denote the same value, with objects as unordered maps, and hold no NaN |
| JsonEquality.EqualsIsEquivalence | csharp/Answer/JSON.cs:121-252 | equality is symmetric and transitive, and reflexive exactly without NaN, so the shortcut for one object changes no other answer |
| GivenRows.Position | rust/src/given.rs:157-160 | a variable's column is the last one of its name |
| GivenRows.GivenRowsBuilder.constructor | c/src/given_rows.rs:98-110 | a new builder has the header, no rows and no active row |
| GivenRows.GivenRowsBuilder.StartNewRow | c/src/given_rows.rs:112-116 | an empty row replaces any uncommitted one |
| GivenRows.GivenRowsBuilder.SetIndex | c/src/given_rows.rs:132-164 | writes one cell of the active row, or reports the missing row, the type or the index and writes nothing |
| GivenRows.GivenRowsBuilder.SetVariable | c/src/given_rows.rs:145-174 | writes the cell of a variable, or reports why not and writes nothing |
| GivenRows.GivenRowsBuilder.CommitRow | c/src/given_rows.rs:118-125 | takes the active row and appends it, or reports that there is none |
| GivenRows.GivenRowsBuilder.Finish | c/src/given_rows.rs:52-60 | the table, exactly if no row is active |
| GivenRows.RunLaw | c/src/given_rows.rs:112-174 | after any operations the rows are those committed, in order, each cell holding the last successful write since its start, and the active row likewise |
| GivenRows.SetErrors | c/src/given_rows.rs:132-174 | which error a set reports after any operations: no row, then a type, then a place outside the header |
| GivenRows.CommitLaw | c/src/given_rows.rs:118-125 | after any operations a commit fails exactly when no row is under construction, and then changes nothing; the rows and the row under construction have the width of the header |
| GivenRowsForms.BuildHeader | c/src/given_rows.rs:86-96 | pushing variables one by one gives the header in that order |
| GivenRowsForms.AddRow | csharp/Concept/GivenRows.cs:38-50 | starting, setting by index and committing appends the padded row, and fails exactly on a row that is too long or holds a type, with the error of its first such cell |
| GivenRowsForms.AddDictionary | csharp/Concept/GivenRows.cs:62-73 | starting, setting by name and committing appends the row of the dictionary, and fails exactly on a type |
| GivenRowsForms.OfRows | csharp/Concept/GivenRows.cs:31-52 | succeeds exactly if no row is too long and no concept is a type, and then builds the rows filled up with empty entries; otherwise it gives the error of the first bad row |
| GivenRowsForms.OfDictionaries | csharp/Concept/GivenRows.cs:54-75 | succeeds exactly if no concept is a type, and then builds a column per key and empty entries for missing keys |
| GivenRowsForms.FirstSeenOrder | csharp/Concept/GivenRows.cs:56-56 | the columns are exactly the keys that occur, each once, in the order they are first seen |
| GivenRowsForms.TwoForms | csharp/Concept/GivenRows.cs:31-75 | the dictionary form and the index form on the same cells, with nothing for missing keys, refuse the same inputs and otherwise make the same table |

## Left out

- Real network I/O, timers and JSON decoding: a fetch is an answer of an arbitrary network, a wait is an event, and a body is its four members that the driver reads.
- Overlapping calls on one driver or database object: the code takes no lock, and a call that starts while another is waiting could send a token of one origin to another; all run-wide claims are for one call at a time.
- The endpoint methods of the HTTP driver, its custom headers and the credentials in the sign-in body: plumbing over the modelled call.
- `new URL`: a parameter; that a protocol is a scheme name and a colon is stated where it is used.
- Texts of error messages: the driver's own are told apart by kind, and a server's text is kept; known error codes are constructors, all others texts.
- The database cache of the Node.js driver and the delivery of a task's value: a task is an arbitrary function of the history and the server.
- Digits outside ASCII, which the platform's digit test and regular expressions also accept, and decimal points other than a point.
- Datetime.RoundTripIff: the calendar text is a parameter assumed to read what it prints, because the calendar belongs to the platform.
- `DatetimeTZ.Parse` and `ToString` as a whole: time-zone tables, and the printed zoned form is not one that the parser treats separately.
- Doubles of 2^52 nanoseconds and more, where the error of the product exceeds one nanosecond, and the result of casting a double beyond the range of long, which is a parameter.
- Reference identity of JSON nodes and their hash codes: object and array hashes are by reference, so they do not agree with equality.
- Capacity hints, ownership and freeing of native objects across the C interface.
- The analyze, options, TLS, user and connection wrappers of all drivers: one-call accessors.
