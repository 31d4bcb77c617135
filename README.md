# Moderator points ledger — a Dafny model

This project models the moderator points ledger of the Busy-cat Discord bot,
and proves properties of the model. The bot keeps one record per moderator,
keyed by Discord id. Each record holds:

- a message count, fed by the tracked channel and by a bounded history
  recovery after downtime;
- an invite count, fed by diffing per-guild invite snapshots on every join;
- leaderboard points, from a weekly top-three award;
- manual points, from admin commands and the dashboard API.

A moderator's balance is
`floor(messageCount / 1000) * pointsPer1000 + inviteCount * pointsPerInvite + leaderboardPoints + manualPoints`.
The rates are read from the settings and default to 15 and 1.

Modules, one per file:

- `Wrappers`: `Option`.
- `Seqs`: what the source takes from the JavaScript array library, stated as
  functions with their laws:
  - `find` and `filter`;
  - `reduce` for sums;
  - a stable descending sort, with its permutation, sortedness and stability
    lemmas.
- `Numbers`: `parseInt` for the shapes the source stores (leading white
  space, sign, `0x`, longest digit prefix, `NaN` as `None`), and `String(n)`
  for integers, with the round trip proved.
- `Schema`: the `moderators` row, the insert shape with its column defaults,
  partial updates, and the settings keys.
- `Storage`: the class `Storage`, the storage layer over an in-memory table
  (a sequence in insertion order), a settings map and a clock.
- `Points`: the single balance formula and the two ways the rates are read
  (the commands' and the dashboard's), proved to agree.
- `Invites`: invite snapshots, `cacheInvites` as a loop, and the
  used-invite search.
- `Recovery`: the history walk of `recoverMissedMessages` as functions, with
  the lemmas on what it can do to a record.
- `Leaderboard`: the ranking, the reward effect and the report rows.
- `Handlers`: the effect of each bot event and command on the table and the
  settings.
- `Bot`: the class `DiscordBot`. Its `store` is a `Storage` and its invite
  cache is a field. Each handler is a method proved to have the effect the
  functions above describe.
- `ApiRoutes`: `buildUrl` as a loop against a substitution function, and
  the request body shapes.
- `Routes`: the manual-points, toggle-ignore and settings-update HTTP
  handlers over a `Storage`.
- `Dashboard`: the dashboard's derived figures.

Calls into Discord become inputs of the methods: their results, or `None`
for a call that fails. These cover fetching invites, members, channel
history and the tracked channel, and posting a message. The calls are:

- `OnMemberJoin`: `fetched` and `roles`.
- `RefreshInviteCacheForGuild`: `fetched`.
- `RecoverMissedMessages`: `channelOk`, `pages` and `roles`.
- `GenerateLeaderboard`: `channelValid` and `sendOk`.

`new Date()` is the storage's `clock`.

## Model

| member | source | states |
|---|---|---|
| Schema.Patch | server/storage.ts:44-51 | an update never changes a record's id or Discord id |
| Schema.NewRecordDefaults | shared/schema.ts:10-14 | a new record with no explicit flag or manual points is unignored with every counter at 0 |
| Schema.NewRecordOmitted | shared/schema.ts:25-31 | whatever the insert holds, the created record takes the serial id and the current time, and starts messages, invites and leaderboard points at 0 |
| Schema.PatchNothing | server/storage.ts:44-51 | an update with no fields only restamps `lastUpdated` |
| Schema.PatchIdempotent | server/storage.ts:44-51 | applying the same update twice equals applying it once at the later time |
| Schema.SettingsKeysDistinct | shared/schema.ts:47-53 | there are exactly five setting keys, all distinct |
| Schema.NewRecord | shared/schema.ts:5-16 | the row the database creates for an insert: the supplied Discord id, name and avatar; the flag and manual points as supplied or defaulted to false and 0; messages, invites and leaderboard points 0; the serial id; the clock as stamp |
| Storage.IndexOfId | server/storage.ts:29-32 | finds the position of the row with a primary key; absent only when no row has it; with unique ids it is the one row with that id |
| Storage.IndexOfDiscordId | server/storage.ts:34-37 | the same lookup, by Discord id, under the unique Discord id constraint |
| Storage.ApplyUpdate | server/storage.ts:44-51 | the table keeps its length and every key; rows with other ids are untouched; the row with the id is patched |
| Storage.ApplyUpdateAt | server/storage.ts:44-51 | with unique ids, updating by row i's id patches exactly row i |
| Storage.Storage.constructor | server/storage.ts:24-27 | the store starts empty, and its invariant (unique ids and Discord ids, ids from the serial) holds |
| Storage.Storage.SetClock | server/storage.ts:47 | the time that later updates stamp |
| Storage.Storage.GetModerator | server/storage.ts:29-32 | returns a row with that id, or absent exactly when no row has it |
| Storage.Storage.GetModeratorByDiscordId | server/storage.ts:34-37 | returns the unique row with that Discord id, or absent exactly when no row has it |
| Storage.Storage.CreateModerator | server/storage.ts:39-42 | appends the defaulted record, which is then found by its id and by its Discord id; a taken Discord id fails; the serial advances either way |
| Storage.Storage.UpdateModerator | server/storage.ts:44-51 | overwrites exactly the supplied fields of that row and stamps the clock; other rows and the settings are unchanged; an unknown id gives absent |
| Storage.Storage.GetSetting | server/storage.ts:57-60 | returns absent for a key never stored, else its value |
| Storage.Storage.UpdateSetting | server/storage.ts:62-72 | an upsert: afterwards the key reads the value; every other key reads as before |
| Numbers.ParseIntOfIntToString | server/bot.ts:278-279 | a rate the bot writes with `toString()` is read back by `parseInt` as the same integer |
| Numbers.NatToStringDigits | server/bot.ts:278-279 | decimal text of n is all digits and denotes n |
| Numbers.ParseNatText | server/bot.ts:325-326 | `parseInt` of the decimal text of a natural number gives it back |
| Numbers.ParseInt | server/bot.ts:325-326 | `parseInt`: leading white space is skipped, then one optional sign, then `0x` or `0X` selects radix 16; the longest digit prefix is the value, and no digit gives `NaN` (absent) |
| Numbers.IntToString | server/bot.ts:278-279 | `toString()` of an integer: a minus sign for a negative one, then its decimal digits without leading zeros |
| Points.TotalOrNaN | server/bot.ts:325-329 | the balance is `NaN` exactly when a rate is; otherwise it is the one formula |
| Points.TotalPoints | server/bot.ts:327-329 | the balance: the rate per full thousand messages, plus invites times the invite rate, plus leaderboard and manual points |
| Points.CommandRates | server/bot.ts:325-326 | the rates `/balance` and `/stats` read: each setting, or the text `'15'` or `'1'` when it is missing or empty, through `parseInt`; absent when either is `NaN` |
| Points.DashboardRates | client/src/pages/dashboard.tsx:33-41 | the dashboard's rates: `parseInt` of a non-empty setting, else 15 or 1; absent when either is `NaN` |
| Points.RatesAgree | client/src/pages/dashboard.tsx:33-41 | the commands' `parseInt(v \|\| '15')` and the dashboard's `v ? parseInt(v) : 15` give the same rates for every settings map |
| Points.RateReadersAgree | server/bot.ts:325-326 | for any stored value, the two rate readers agree when the fallback text is the default written out |
| Points.RatesDefault | server/bot.ts:325-326 | missing or empty rate settings read as 15 and 1 on both sides |
| Points.DefaultTexts | server/bot.ts:325-326 | `'15'` and `'1'` are the decimal texts of the defaults |
| Points.RateRoundTrip | server/bot.ts:278-279 | a rate stored as `n.toString()` is read back as n by either reader |
| Points.MessagePointsPerThousand | server/bot.ts:327 | message points are the rate per full thousand messages: 0 below 1000 |
| Points.TotalAfterMessage | server/bot.ts:327-329 | one more message adds the rate exactly when it completes a thousand |
| Points.TotalAfterInvite | server/bot.ts:328-329 | one more invite adds exactly the invite rate |
| Points.TotalAfterBonus | server/bot.ts:329 | leaderboard and manual points enter the balance one for one |
| Points.TotalIgnoresIdentity | server/bot.ts:327-329 | the balance depends only on the four point-bearing counters |
| Points.TotalMonotone | server/bot.ts:327 | with a non-negative rate more messages never lower the balance |
| Points.ExampleBalance | server/bot.ts:327-329 | 2500 messages, 3 invites, 20 leaderboard and -5 manual points give 48 at the default rates |
| Invites.Cached | server/bot.ts:376-380 | an entry keeps the code, takes uses defaulting to 0, and takes the inviter id or null (never an empty id) |
| Invites.SnapshotOf | server/bot.ts:373-383 | the collection `cacheInvites` fills: each listed invite in turn is set under its code, so a later listing of a code overwrites an earlier one |
| Invites.Grew | server/bot.ts:98-101 | the `find` test: the invite has a cached entry and strictly more uses than it, a missing count read as 0 |
| Invites.CacheInvites | server/bot.ts:373-383 | the loop builds exactly the snapshot of the listed invites, keyed by every listed code |
| Invites.SnapshotKeys | server/bot.ts:373-383 | the snapshot's codes are exactly the listed codes |
| Invites.SnapshotEntry | server/bot.ts:373-383 | each code maps to the entry of its last listing |
| Invites.UsedInvite | server/bot.ts:98-101 | the used invite is the first listed invite with a cached entry and strictly more uses; absent when there is none |
| Invites.CreditedInviter | server/bot.ts:98-103 | a credited inviter is the inviter of an invite that grew; no snapshot credits nobody |
| Invites.ColdStartCreditsNothing | server/bot.ts:94-101 | without a snapshot for the guild no invite is found used |
| Invites.TwoJoins | server/bot.ts:92-122 | snapshot {A:5}, then [A:6, B:0] credits A's inviter; the next join with [A:6, B:1] credits B's inviter |
| Recovery.EarliestUpdate | server/bot.ts:221-223 | the cutoff is the least `lastUpdated` of the non-ignored records, or now if that is earlier |
| Recovery.CreditMessage | server/bot.ts:242-250 | one message at or after the cutoff: a role-holding author's active record gains one message when the message is strictly newer than its `lastUpdated`; otherwise nothing changes |
| Recovery.ScanPage | server/bot.ts:234-251 | the loop over one page: every message is counted; bot and guild-less messages are skipped; a human guild message older than the cutoff sets the counter to 500 and ends the page; the others are credited |
| Recovery.ScanHistory | server/bot.ts:229-256 | the outer loop: fetch the next page while the counter is below 500; an empty page or the end of the history stops it |
| Recovery.Recover | server/bot.ts:201-259 | no change without both settings, a usable channel, or any record; otherwise the walk from counter 0 with the earliest active update as cutoff |
| Recovery.FirstTooOld | server/bot.ts:236-240 | the first position in a page of a human guild message older than the cutoff: none before it is one, and it is absent exactly when the page has none |
| Recovery.PageLooked | server/bot.ts:235-240 | the messages of a page the loop counts: up to and including the first too-old one, or the whole page when it has none |
| Recovery.PageCounter | server/bot.ts:235-240 | the counter after one page: 500 if it holds a too-old message, else one more per message |
| Recovery.Inspected | server/bot.ts:229-256 | the messages the outer loop counts in all, page by page, stopping where the walk stops |
| Recovery.RecoverInspected | server/bot.ts:201-259 | the messages one recovery counts: none on the early returns, otherwise the walk's count |
| Recovery.ScanPageCounter | server/bot.ts:234-240 | whatever the table, the counter the page loop returns is 500 when the page holds a too-old message, else the old counter plus the page length |
| Recovery.InspectedBound | server/bot.ts:229-256 | from a counter below 500, with pages of at most 100 messages, fewer than 600 messages are counted in all: the cap is checked only between pages |
| Recovery.RecoverInspectedBound | server/bot.ts:201-259 | with pages of at most 100 messages, one recovery counts fewer than 600 messages |
| Recovery.ScanPageStopsAt | server/bot.ts:237-240 | the first too-old message of a page sets the counter to 500, and the table is what the messages before it made of it |
| Recovery.SkippedPage | server/bot.ts:236 | a page of bot or guild-less messages only advances the counter |
| Recovery.ScanHistoryStopsAt | server/bot.ts:229-256 | a page holding a too-old message is the last one fetched: the result is what the earlier messages of that page made, whatever pages follow |
| Recovery.CreditMessageGuard | server/bot.ts:245-250 | for a role-holding author with an active record, the count rises by exactly one and is restamped if and only if the message is strictly newer than `lastUpdated` |
| Recovery.CreditMessageNoRecord | server/bot.ts:242-246 | an author who fails the role check, or has no record, changes nothing |
| Recovery.OnlyCountsTrans | server/bot.ts:229-254 | "only raised counts of active records" composes across steps |
| Recovery.OnlyCountsKeepsKeys | server/bot.ts:229-254 | such changes keep every id and Discord id, and so the table's uniqueness |
| Recovery.CreditMessageOnlyCounts | server/bot.ts:245-250 | crediting one message only raises an active record's count |
| Recovery.ScanPageOnlyCounts | server/bot.ts:234-251 | one page of the walk only raises counts of active records |
| Recovery.ScanHistoryOnlyCounts | server/bot.ts:229-254 | the whole walk only raises counts of active records |
| Recovery.RecoverOnlyCounts | server/bot.ts:201-259 | recovery creates and removes nothing, never touches an ignored record, and only raises message counts |
| Recovery.CreditMessageOnce | server/bot.ts:245-250 | a record credited earlier in the run is stamped now, so a message no later than now cannot credit it again |
| Recovery.ScanPageOnce | server/bot.ts:234-251 | within a page each record is credited at most once |
| Recovery.ScanHistoryOnce | server/bot.ts:229-254 | across pages each record is credited at most once |
| Recovery.RecoverAtMostOnce | server/bot.ts:201-259 | with history no later than now, one run adds at most one message to each active record, each credit stamped now |
| Recovery.OlderThanCutoffStops | server/bot.ts:236-240 | when the first human guild message of a page is older than the cutoff, at any position after skipped ones, the walk ends with the table unchanged, whatever pages follow |
| Leaderboard.Top | server/bot.ts:423 | the winners are the first three ranked records, or all of them when fewer |
| Leaderboard.Ranking | server/bot.ts:413-416 | the non-ignored records, stably sorted by message count, descending |
| Leaderboard.AwardedAfter | server/bot.ts:428-434 | the table after the first n iterations of the reward loop: a record among the first n winners has its rank's reward added, every other record is as it was |
| Leaderboard.AwardAll | server/bot.ts:428-437 | the rewarded table keeps the length, and every row keeps its id and Discord id |
| Leaderboard.AwardStep | server/bot.ts:428-434 | iteration n of the reward loop adds the rank-n reward to winner n and leaves every other row as it was |
| Leaderboard.AwardNext | server/bot.ts:428-434 | one `updateModerator` of winner n, with the points read before the loop plus the rank-n reward, takes the table from n rewards to n + 1 |
| Leaderboard.RankIndex | server/bot.ts:428-429 | a record's rank among the winners, by id |
| Leaderboard.RankBelow | server/bot.ts:428-429 | a record's rank among the first n winners: a position below n holding that id, or absent exactly when none of them has it |
| Leaderboard.Report | server/bot.ts:428-442 | one row per ranked record, in rank order, with rank, id, count, and the reward for ranks 1-3 |
| Leaderboard.ReportStep | server/bot.ts:436-441 | each iteration appends the next report line |
| Leaderboard.RankingFacts | server/bot.ts:413-416 | the ranking holds exactly the non-ignored records, sorted by message count descending, with equal counts in stored order |
| Leaderboard.UniqueIdsOfSub | server/bot.ts:413-416 | ranked records have distinct ids |
| Leaderboard.WinnersFacts | server/bot.ts:413-423 | the winners are distinct, non-ignored records of the table |
| Leaderboard.RankedFrom | server/bot.ts:413-416 | the ranking takes its records from the table, and only non-ignored ones |
| Leaderboard.LeaderboardAwards | server/bot.ts:405-442 | the record at rank k + 1 gains exactly `Rewards[k]` (40, 30, 20) and is restamped; every record not among the winners, ignored ones included, is unchanged |
| Leaderboard.IgnoredNeverRewarded | server/bot.ts:413-416 | an ignored record is never rewarded |
| Leaderboard.ExampleRanking | server/bot.ts:413-416 | counts [100, 80, 80, 10] rank in that order; the tie keeps stored order |
| Handlers.MessageCredits | server/bot.ts:83-89 | a counted message from a known active moderator adds exactly one message and refreshes the username and avatar; nothing else changes |
| Handlers.MessageEnrols | server/bot.ts:71-89 | a counted message from an unknown account creates its record, unignored, with one message and 0 manual points |
| Handlers.MessageIgnored | server/bot.ts:60-83 | a message failing any gate condition, or from an ignored moderator, changes nothing, profile included |
| Handlers.MessageBalance | server/bot.ts:85-89 | per message the balance rises by the rate exactly at each thousandth message |
| Handlers.Counts | server/bot.ts:60-69 | the gate of `messageCreate`: a human guild message, both settings truthy, in the tracked channel, from a holder of the moderator role |
| Handlers.MessageEffect | server/bot.ts:59-90 | the table after `messageCreate`: unchanged past a failed gate or for an ignored record; an unknown author is appended with one message; a known active record gains one message and the author's current name and avatar |
| Handlers.JoinEffect | server/bot.ts:103-116 | a join never creates or removes a record |
| Handlers.JoinCredits | server/bot.ts:103-116 | with the role set and held, an active inviter record gains exactly one invite and the invite rate |
| Handlers.FailedFetchForgets | server/bot.ts:96 | after a failed invite fetch the guild's snapshot is empty, so the next join credits nobody |
| Handlers.RefreshAllEntry | server/bot.ts:395-402 | after a refresh of every guild, each successful guild holds its current snapshot and the others keep theirs |
| Handlers.RefreshAll | server/bot.ts:395-402 | the cache after each guild in turn is refreshed: a successful fetch replaces the guild's snapshot, a failed one keeps it |
| Handlers.PointsSettings | server/bot.ts:274-282 | `set points`: each supplied rate is stored as its decimal text; an omitted one is left as it was |
| Handlers.SetPointsRates | server/bot.ts:274-282 | after `set points` a supplied rate is read back exactly, and an omitted one reads as before |
| Handlers.SetPointsBoth | server/bot.ts:274-282 | with both values supplied, `balance` uses exactly those rates |
| Handlers.ExcludeMarks | server/bot.ts:283-299 | afterwards the account has exactly one record, ignored, with counters as before (zero if new); other records are unchanged |
| Handlers.ExcludeEffect | server/bot.ts:283-299 | `/exclude`: an unknown account is appended as an ignored record with 0 manual points; a known record is marked ignored |
| Handlers.AddPointsBalance | server/bot.ts:300-318 | the account's balance rises by exactly the signed amount, ignored or not; a new record's balance is the amount |
| Handlers.AddPointsEffect | server/bot.ts:300-318 | `/addpoints`: an unknown account is appended, unignored, with `amount` manual points; a known record gains `amount` manual points |
| Handlers.StatsAgreesWithBalance | server/bot.ts:340-353 | each point figure is present exactly when its own rate is and is that rate's component; the total is the `/balance` total and the sum of the components shown |
| Handlers.Stats | server/bot.ts:350-353 | the `/stats` figures: message points from the per-thousand rate and invite points from the invite rate, each `NaN` only when its own rate is; the total `NaN` when either is |
| Bot.DiscordBot.constructor | server/bot.ts:25-28 | the invite cache starts empty over a valid store |
| Bot.DiscordBot.OnMessage | server/bot.ts:59-90 | the table becomes the message effect; the settings and clock are unchanged; the serial advances iff a record was created |
| Bot.DiscordBot.CountMessage | server/bot.ts:71-89 | for a message past the gate, enrols an unknown author and then counts it; the table becomes the message effect and the serial advances iff a record was created |
| Bot.DiscordBot.OnMemberJoin | server/bot.ts:92-123 | the table becomes the join effect for the first grown invite; the guild snapshot is replaced wholesale by the fetched list, empty on a failed fetch |
| Bot.DiscordBot.CreditInvite | server/bot.ts:103-116 | the table becomes the join effect for the credited inviter; settings, clock and serial are unchanged |
| Bot.DiscordBot.RefreshInviteCacheForGuild | server/bot.ts:385-393 | success replaces the guild's snapshot; failure leaves the cache unchanged |
| Bot.DiscordBot.OnInviteChanged | server/bot.ts:125-135 | an invite in a guild refreshes that guild only; an invite without a guild changes nothing |
| Bot.DiscordBot.RefreshInviteCache | server/bot.ts:395-402 | refreshes each guild in turn, and returns true |
| Bot.DiscordBot.RecoverMissedMessages | server/bot.ts:201-259 | the table becomes the recovery effect; the settings, clock and serial are unchanged; the count of messages looked at is the recovery count (0 on the early returns), fewer than 600 with pages of at most 100 |
| Bot.DiscordBot.RecoverPage | server/bot.ts:234-251 | the loop over one page computes exactly the page scan, the new counter and table, and counts the messages the page count says |
| Bot.DiscordBot.RecoverMessage | server/bot.ts:242-250 | one message newer than the cutoff credits its author exactly as the crediting function says; settings, clock and serial are unchanged |
| Bot.DiscordBot.SetManager | server/bot.ts:266-269 | stores the moderator role id under its key |
| Bot.DiscordBot.SetTrack | server/bot.ts:270-273 | stores the tracked channel id under its key |
| Bot.DiscordBot.SetPoints | server/bot.ts:274-282 | writes only the supplied rates, as decimal text |
| Bot.DiscordBot.Exclude | server/bot.ts:283-299 | the table becomes the exclude effect |
| Bot.DiscordBot.AddPoints | server/bot.ts:300-318 | the table becomes the add-points effect |
| Bot.DiscordBot.Balance | server/bot.ts:319-331 | absent iff the caller has no record; otherwise the total the dashboard shows, using 15 and 1 when the rates are unset |
| Bot.DiscordBot.StatsFor | server/bot.ts:340-353 | targets the requested account or the caller; absent iff it has no record; its total is that account's `/balance`; each point figure is present exactly when its own rate parses |
| Bot.DiscordBot.GenerateLeaderboard | server/bot.ts:404-449 | an unset or invalid tracked channel fails before any change; otherwise the top three are rewarded, then the full report is published, or the post fails after the rewards |
| Bot.DiscordBot.AwardTop | server/bot.ts:423-437 | given distinct winners drawn from the table, the reward loop leaves exactly the rewarded table and writes the first report lines |
| Bot.DiscordBot.AwardOne | server/bot.ts:428-434 | one iteration of the reward loop takes the table from the first i awards to the first i + 1 |
| ApiRoutes.IndexOfFrom | shared/routes.ts:86-87 | the first occurrence of the placeholder at or after a position, or none |
| ApiRoutes.ReplaceFirst | shared/routes.ts:87 | `s.replace(t, r)` with a string pattern: the first occurrence of `t` becomes `r`, and without one the text is unchanged |
| ApiRoutes.Substitute | shared/routes.ts:86-88 | one entry: the first `:key` becomes the value's text when the url contains it |
| ApiRoutes.SubstituteAll | shared/routes.ts:85-89 | the entries in order, each acting on the previous result |
| ApiRoutes.BuildUrl | shared/routes.ts:82-92 | the loop returns the path unchanged without params, else the entry-by-entry substitution |
| ApiRoutes.NoParamsUnchanged | shared/routes.ts:82-91 | no entries leave the path unchanged |
| ApiRoutes.AbsentKeyUnchanged | shared/routes.ts:86 | a key whose placeholder does not occur leaves the url unchanged |
| ApiRoutes.FirstOccurrenceOnly | shared/routes.ts:87 | only the first `:key` becomes `String(value)`; the text before it and after it, later occurrences included, is kept |
| ApiRoutes.SubstituteInOrder | shared/routes.ts:85-89 | entries apply in order, each on the previous result |
| ApiRoutes.ExampleManualPointsUrl | shared/routes.ts:82-92 | `/api/moderators/:id/manual-points` with id 5 becomes `/api/moderators/5/manual-points` |
| ApiRoutes.ParseManualPointsInput | shared/routes.ts:29-32 | accepts exactly a numeric `points` with an absent or string `reason` |
| ApiRoutes.ParseSettingInput | shared/schema.ts:18-33 | accepts exactly a string `key` and a string `value` |
| Routes.RouteId | server/routes.ts:28 | `parseInt` of the id parameter: present exactly when it parses to a non-negative integer, and then that integer; a negative id names no row, and a `NaN` id is treated the same way (see Left out) |
| Routes.Target | server/routes.ts:28-30 | the row the id parameter names, or absent exactly when there is none |
| Routes.UpdateManualPoints | server/routes.ts:27-37 | an unknown id gives 404; then a malformed body fails validation with no change; otherwise exactly that row's manual points rise by `points` and the row is returned |
| Routes.ManualPointsGrant | server/routes.ts:33-35 | a grant changes only manual points and the stamp, ignored or not, and raises the balance by exactly `points` |
| Routes.ToggleIgnore | server/routes.ts:39-48 | an unknown id gives 404 with no change; otherwise exactly that row's flag is flipped |
| Routes.ToggleTwice | server/routes.ts:44-46 | a toggle flips only the flag; toggling twice restores the record except its stamp |
| Routes.UpdateSettingRoute | server/routes.ts:56-60 | a malformed body changes nothing; otherwise the pair is upserted and returned |
| Dashboard.FindSetting | client/src/pages/dashboard.tsx:34 | a found value is that of a listed row with the key; nothing is found before the list loads |
| Dashboard.EnrichAll | client/src/pages/dashboard.tsx:46-50 | one enriched row per moderator, in order |
| Dashboard.Enrich | client/src/pages/dashboard.tsx:46-50 | one row: message and invite points each from its own rate, `NaN` where that rate is, and the total `NaN` when either is |
| Dashboard.EnrichedModerators | client/src/pages/dashboard.tsx:44-52 | empty before the list loads; then every moderator enriched with the listed rates and sorted by total, descending |
| Dashboard.DisplayRank | client/src/pages/dashboard.tsx:165 | the rank column runs from 1 to the number of rows |
| Dashboard.EnrichTotal | client/src/pages/dashboard.tsx:47-49 | the dashboard's total is the one balance formula, `NaN` exactly when a rate is |
| Dashboard.EnrichAllSums | client/src/pages/dashboard.tsx:46-56 | enrichment keeps the message and invite sums and the active count |
| Dashboard.DashboardOrder | client/src/pages/dashboard.tsx:44-52 | every moderator appears once, sorted by total descending; with unreadable rates the fetched order is kept |
| Dashboard.DashboardCounters | client/src/pages/dashboard.tsx:54-56 | the message and invite totals are sums over all moderators, ignored ones included; `activeMods` counts the non-ignored ones |
| Dashboard.FindListedSetting | client/src/pages/dashboard.tsx:34-39 | over a list of the stored settings, the lookup finds the stored value |
| Dashboard.DashboardAgreesWithBot | client/src/pages/dashboard.tsx:44-52 | over the stored settings, every row's total equals the bot's balance for that moderator |
| Dashboard.DashboardDefaults | client/src/pages/dashboard.tsx:33-41 | missing or empty rate settings give 15 and 1 |
| Seqs.SortDescFacts | server/bot.ts:413-416 | the sort returns a sorted permutation of its input |
| Seqs.SortDescStable | server/bot.ts:416 | equal keys keep their input order |
| Seqs.SortDescConstant | client/src/pages/dashboard.tsx:51 | with all keys equal, as when every comparison is `NaN`, the order is unchanged |
| Seqs.SumPermutation | client/src/pages/dashboard.tsx:54-55 | a sum does not depend on order |
| Seqs.FilterCountPermutation | client/src/pages/dashboard.tsx:56 | a filtered count does not depend on order |

## Left out

- The discord.js plumbing is not modelled: client construction, login, command registration and the `ready` sequence. Concurrency and the asynchronicity of handlers are out too: each handler is one atomic step.
- Reply and embed texts are out. The leaderboard report is a sequence of (rank, id, count, reward) rows; an empty report shows "No active moderators tracked yet."
- The `/leaderboard` command branch and the bot-action HTTP endpoints only relay `GenerateLeaderboard`'s outcome or the cache refresh, so they have no members of their own.
- `Bot.DiscordBot.GenerateLeaderboard`: a rejected channel fetch and a fetched non-text channel both appear as `InvalidTrackedChannel`. The thrown message differs in the source.
- `Bot.DiscordBot.AwardTop`: requires the winners to be distinct records of the table, as `GenerateLeaderboard` establishes from the ranking; the loop is not specified for an arbitrary list with repeated ids.
- `Bot.DiscordBot.RecoverMissedMessages`: the proved bound (`Recovery.InspectedBound`) is fewer than 600 inspected messages, not 500. The 500 cap is checked only between pages, so the last page fetched can run past 500.
- `Bot.DiscordBot.RecoverMissedMessages`: a failed history fetch is treated like the end of the history. Both stop the walk, and credits already written are kept. The `before: lastId` paging order is the order of `pages`.
- Discord status and error paths are inputs rather than modelled calls. A member lookup that fails is `None` in `RoleLookup`, as in the source's `.catch(() => null)`.
- The database is an in-memory sequence. `getModerators` has no `ORDER BY`; the model takes insertion order as the stored order that leaderboard ties keep.
- `Routes.RouteId`: a `NaN` id parameter is answered 404 here. The source passes `NaN` on to the query at server/storage.ts:30, and the database layer behind it is not part of this model; that query most likely fails, so the source's handler errors instead of answering 404.
- Drizzle and Express internals are not modelled. A validation failure is `ValidationFailed`, without an HTTP form.
- `Storage.Storage.CreateModerator`: a Discord id conflict is a `None` result rather than a thrown error. No caller in the core creates a record without first finding that the id is absent.
- Integer columns are 32-bit in Postgres, but counters are unbounded `int`s here: overflow is not modelled.
- `z.number()` accepts non-integers; `points` is an integer here.
- Timestamps are integer clock readings.
- `parseInt` covers leading ECMAScript white space, sign, the `0x` prefix and the longest digit prefix. The radix argument and `Number#toString` of non-integers are not modelled.
- `buildUrl`'s `String.prototype.replace` treats `$` patterns in the replacement specially; the model substitutes the value literally. Params are taken as an entry list already in `Object.entries` order.
- The dashboard's loading and error rendering, and all UI beyond line 56 except the rank column, are out. So are the settings page, dialogs and hooks.
- `getSettings` and the list endpoints are plain reads and have no members of their own; the dashboard takes their results as inputs.
