# Warzones and their control bar

This is a Dafny model of the SiegeNodes warzone: a fixed list of territories that nations
fight over. A nation that completes the capture of every territory takes control of the
zone. The zone keeps per-nation control statistics: total time held, the open session,
the longest streak and the number of takeovers. It answers whether a nation may attack the
zone or a chunk. It ranks the nations for a leaderboard. It keeps a cached snapshot for
saving, and the snapshot serialises to a JSON object.

Beside the warzone sits the control bar. It keeps one boss bar for each player who stands
in a warzone, showing the controller and how long they have held the zone. It updates on
player moves, on player quits, on a periodic sweep and when control changes.

Modules:

- `WarzoneData` (`warzone_data.dfy`) has the values: capture states, control statistics,
  the chunk counts, the full-capture test, and the opening and closing of sessions as
  functions on the history map.
- `Ranking` (`ranking.dfy`) is the leaderboard, a stable descending sort on total time
  including the open session.
- `Warzones` (`warzone.dfy`) has the `Warzone` class, with the fields the source updates in
  place, and the immutable `WarzoneSaveState` snapshot.
- `SaveJson` (`save_json.dfy`) is the structure of the snapshot's JSON object, with decoders
  for round-trip statements.
- `ControlBar` (`control_bar.dfy`) has the `WarzoneControlBar` class with its two per-player
  tables, duration formatting and bar rendering.
- `Decimal` and `Wrappers` hold decimal digit strings, `Option` and `Result`.

Things outside the model are its parameters:

- A nation is its id. A `Nation` object is compared by identity in the source, which with
  one object per nation is the same as comparing ids.
- The clock is the `now` argument.
- The server's answers are the `World` oracles: whether a player is online, the chunk they
  stand in, and the territory of a chunk.
- A nation's display name comes from `nameOf`.
- The warzone registry is the sequence `zones`, in iteration order.
- A hash map's iteration order is an `order` sequence satisfying `IsOrderOf`. The control
  bar's loops pick players in an unspecified order.

Boss bars are handles kept with the view last rendered on them. The bar's progress, a
double in the source, is the exact fraction `progressNum / progressDen`.

`Warzone.notifications` is a ghost log of the control bar notifications. Each entry holds
the state the bar then reads. The source notifies before it changes the controller, so an
entry holds the old controller and start time, together with the history in which the
outgoing session is already closed.

Where the description of the system and the code disagree, the model follows the code:

- The description says that every mutation marks the snapshot stale. In the code only
  `needsUpdate()` does, and `updateControl` and `loseControl` do not call it. In the model
  they leave `needsUpdate` unchanged.
- The description says that a captured count above the total is rejected. The code checks
  nothing, and `CaptureState` allows any counts.
- The description says leaderboard ties are broken by insertion order into the history. The
  history is a `hashMapOf()` (Warzone.kt:20), which iterates in hash order, and the stable sort
  keeps that order. The model takes the iteration order as an arbitrary `order` sequence, so ties
  keep whatever order the map yields, not insertion order.

## Model

| member | source | states |
|---|---|---|
| WarzoneData.IsFullyCaptured | nodes/src/main/kotlin/phonon/nodes/objects/Warzone.kt:65-71 | a nation fully captures the zone iff every listed territory has an entry captured by that nation with captured == total; a zone with no territories is fully captured by everyone |
| WarzoneData.TotalChunks | nodes/src/main/kotlin/phonon/nodes/objects/Warzone.kt:52-56 | the sum over the listed territories of their totals; never negative when no entry's total is |
| WarzoneData.CapturedChunks | nodes/src/main/kotlin/phonon/nodes/objects/Warzone.kt:58-63 | the sum over the listed territories of the nation's captured counts; within the total whenever each territory's contribution is within its total |
| WarzoneData.TotalChunksDependsOnListed | nodes/src/main/kotlin/phonon/nodes/objects/Warzone.kt:52-56 | the total chunk count depends only on the entries of the listed territories |
| WarzoneData.CapturedChunksDependsOnListed | nodes/src/main/kotlin/phonon/nodes/objects/Warzone.kt:58-63 | a nation's captured count depends only on the entries of the listed territories |
| WarzoneData.UnlistedProgressIgnored | nodes/src/main/kotlin/phonon/nodes/objects/Warzone.kt:52-63 | adding, changing or removing progress for an unlisted territory changes neither count |
| WarzoneData.TotalChunksWithoutProgress | nodes/src/main/kotlin/phonon/nodes/objects/Warzone.kt:52-56 | territories without a progress entry count 0, so a zone without progress has total 0 |
| WarzoneData.CapturedChunksOfOthers | nodes/src/main/kotlin/phonon/nodes/objects/Warzone.kt:58-63 | territories captured by another nation or by none add nothing to a nation's count |
| WarzoneData.FullCaptureHoldsAllChunks | nodes/src/main/kotlin/phonon/nodes/objects/Warzone.kt:52-71 | a nation that fully captures the zone has captured chunks equal to the total |
| WarzoneData.FullCaptureIsExclusive | nodes/src/main/kotlin/phonon/nodes/objects/Warzone.kt:65-71 | in a zone with at least one territory, at most one nation fully captures it |
| WarzoneData.CurrentControlMs | nodes/src/main/kotlin/phonon/nodes/objects/Warzone.kt:37-43 | the open session's length at now, 0 without an open session and never negative once the session has started |
| WarzoneData.TotalWithCurrentMs | nodes/src/main/kotlin/phonon/nodes/objects/Warzone.kt:36-44 | the total plus the open session; just the total without one |
| WarzoneData.TotalWithCurrentGrows | nodes/src/main/kotlin/phonon/nodes/objects/Warzone.kt:36-44 | as the clock advances, total-with-current grows by exactly the elapsed time during an open session and stays fixed otherwise |
| WarzoneData.EndSession | nodes/src/main/kotlin/phonon/nodes/objects/Warzone.kt:97-111 | closing a session adds its duration to the total, raises the longest streak to the duration when that is larger, clears the open session, keeps nation and count; without an open session nothing changes |
| WarzoneData.EndSessionKeepsTotalWithCurrent | nodes/src/main/kotlin/phonon/nodes/objects/Warzone.kt:36-44 | at the moment of closing, total-with-current is the same before and after, and nothing is open afterwards |
| WarzoneData.EndSessionLongestMonotone | nodes/src/main/kotlin/phonon/nodes/objects/Warzone.kt:104-107 | closing a session never shortens the longest streak |
| WarzoneData.EndedPeriod | nodes/src/main/kotlin/phonon/nodes/objects/Warzone.kt:97-111 | ending a nation's period replaces only its entry, by the closed session; without an entry or an open session the history is unchanged |
| WarzoneData.BegunPeriod | nodes/src/main/kotlin/phonon/nodes/objects/Warzone.kt:84-92 | taking control creates the entry if missing (zero totals), opens the session at now, adds one to the count, keeps the totals, touches no other entry |
| WarzoneData.TransferKeepsConsistency | nodes/src/main/kotlin/phonon/nodes/objects/Warzone.kt:73-95 | a transfer at a positive time keeps the zone consistent: a start time exactly while controlled, only and exactly the controller with an open session, entries filed under their nation |
| WarzoneData.LossKeepsConsistency | nodes/src/main/kotlin/phonon/nodes/objects/Warzone.kt:113-122 | losing control keeps the zone consistent, with no open session left |
| WarzoneData.EntriesInOrder | nodes/src/main/kotlin/phonon/nodes/objects/Warzone.kt:192 | the history's values in iteration order, one per key |
| Ranking.Insert | nodes/src/main/kotlin/phonon/nodes/objects/Warzone.kt:192-193 | inserting into a descending list keeps it descending and adds exactly the inserted entry |
| Ranking.SortedTail | nodes/src/main/kotlin/phonon/nodes/objects/Warzone.kt:192-193 | the tail of a descending list is descending |
| Ranking.SortedCons | nodes/src/main/kotlin/phonon/nodes/objects/Warzone.kt:192-193 | an entry whose key is at least the head's can go in front of a descending list |
| Ranking.InsertAtFront | nodes/src/main/kotlin/phonon/nodes/objects/Warzone.kt:192-193 | an entry whose key is at least the head's is inserted at the front |
| Ranking.InsertPastHead | nodes/src/main/kotlin/phonon/nodes/objects/Warzone.kt:192-193 | an entry whose key is below the head's is inserted after the head |
| Ranking.Leaderboard | nodes/src/main/kotlin/phonon/nodes/objects/Warzone.kt:191-193 | the ranking is sorted by total-with-current, largest first, and is a permutation of the history entries |
| Ranking.WithKeyCons | nodes/src/main/kotlin/phonon/nodes/objects/Warzone.kt:192-193 | the equal-key filter of a list with a head is the head (if its key matches) followed by the filter of the rest |
| Ranking.FilterPastLarger | nodes/src/main/kotlin/phonon/nodes/objects/Warzone.kt:192-193 | moving an entry with a larger key in front of another does not change the order among entries of any one key |
| Ranking.InsertWithKey | nodes/src/main/kotlin/phonon/nodes/objects/Warzone.kt:192-193 | insertion places the new entry before every entry with an equal key |
| Ranking.LeaderboardIsStable | nodes/src/main/kotlin/phonon/nodes/objects/Warzone.kt:192-193 | the sort is stable: entries with equal keys keep their iteration order |
| Ranking.LeaderboardOfTwo | nodes/src/main/kotlin/phonon/nodes/objects/Warzone.kt:192-193 | two entries already in descending order keep it |
| Ranking.LeaderboardOfThree | nodes/src/main/kotlin/phonon/nodes/objects/Warzone.kt:192-193 | three entries whose keys rank second, first, third come out in that order |
| Ranking.LeaderboardExample | nodes/src/main/kotlin/phonon/nodes/objects/Warzone.kt:183-213 | nations with 5, 12 and 3 hours rank 12, 5, 3 |
| Warzones.WarzoneSaveState.constructor | nodes/src/main/kotlin/phonon/nodes/objects/Warzone.kt:219-226 | the snapshot holds the warzone's data at the time it is taken |
| Warzones.Warzone.constructor | nodes/src/main/kotlin/phonon/nodes/objects/Warzone.kt:12-21 | the data-class fields are the arguments, no nation is at war, the snapshot mirrors the initial data and is not stale; an empty warzone is consistent |
| Warzones.Warzone.UpdateControl | nodes/src/main/kotlin/phonon/nodes/objects/Warzone.kt:73-95 | control passes only when the nation fully captures the zone and does not hold it already; then the old controller's session closes, one notification is sent with the state the bar reads, the nation's session opens at now and its count rises by one; otherwise nothing changes; consistency is kept |
| Warzones.Warzone.Transfer | nodes/src/main/kotlin/phonon/nodes/objects/Warzone.kt:75-94 | the transfer: the old controller's session closes, one notification goes out with the state the bar reads, the nation's session opens at now with its count one higher, no other entry changes, consistency is kept |
| Warzones.Warzone.EndControlPeriod | nodes/src/main/kotlin/phonon/nodes/objects/Warzone.kt:97-111 | the history becomes the one with that nation's period ended |
| Warzones.Warzone.GetTotalChunks | nodes/src/main/kotlin/phonon/nodes/objects/Warzone.kt:52-56 | the zone's total chunk count, never negative when no entry's total is |
| Warzones.Warzone.GetCapturedChunks | nodes/src/main/kotlin/phonon/nodes/objects/Warzone.kt:58-63 | a nation that fully captures the zone has captured every one of its chunks |
| Warzones.Warzone.IsFullyCapturedBy | nodes/src/main/kotlin/phonon/nodes/objects/Warzone.kt:65-71 | true iff every listed territory is captured by the nation with captured == total |
| Warzones.Warzone.LoseControl | nodes/src/main/kotlin/phonon/nodes/objects/Warzone.kt:113-122 | an uncontrolled zone is unchanged; otherwise the controller's session closes, one notification goes out, and the zone becomes uncontrolled with start time 0; consistency is kept |
| Warzones.Warzone.CanAttack | nodes/src/main/kotlin/phonon/nodes/objects/Warzone.kt:124-134 | a nation may attack iff it has declared war, whether or not it controls the zone |
| Warzones.Warzone.CanAttackChunk | nodes/src/main/kotlin/phonon/nodes/objects/Warzone.kt:136-148 | a chunk is refused iff the nation's own towns occupy it or an ally is attacking it |
| Warzones.Warzone.RankedHistory | nodes/src/main/kotlin/phonon/nodes/objects/Warzone.kt:191-193 | the leaderboard is a descending permutation of the history's entries |
| Warzones.Warzone.NeedsUpdate | nodes/src/main/kotlin/phonon/nodes/objects/Warzone.kt:252-254 | marks the snapshot stale |
| Warzones.Warzone.GetSaveState | nodes/src/main/kotlin/phonon/nodes/objects/Warzone.kt:256-262 | without a mark the same snapshot comes back; after a mark a new snapshot of the current data is taken; the mark is cleared |
| SaveJson.TerritoriesJson | nodes/src/main/kotlin/phonon/nodes/objects/Warzone.kt:231 | the territory array holds each territory id as a number, in list order |
| SaveJson.AtWarJson | nodes/src/main/kotlin/phonon/nodes/objects/Warzone.kt:233 | the at-war array holds each nation's UUID string, in iteration order |
| SaveJson.ProgressMembers | nodes/src/main/kotlin/phonon/nodes/objects/Warzone.kt:235-238 | one member per progress entry, keyed by the territory id's decimal text |
| SaveJson.HistoryMembers | nodes/src/main/kotlin/phonon/nodes/objects/Warzone.kt:240-243 | one member per history entry, keyed by the nation's UUID text |
| SaveJson.StatsJson | nodes/src/main/kotlin/phonon/nodes/objects/Warzone.kt:242 | a statistics object has exactly the fields total, current, longest, times, in that order |
| SaveJson.CaptureJson | nodes/src/main/kotlin/phonon/nodes/objects/Warzone.kt:237 | a capture object has the fields captured, total, nation in order, holding the counts and the capturing nation (null when none) |
| SaveJson.CreateJson | nodes/src/main/kotlin/phonon/nodes/objects/Warzone.kt:230-246 | the object has exactly the seven fields in order; controlling, controlStart and history hold the snapshot's controller (null when none), start time and history |
| SaveJson.FieldLookups | nodes/src/main/kotlin/phonon/nodes/objects/Warzone.kt:245 | the field names are distinct, so a reader finds each field where it was written |
| SaveJson.Keys | nodes/src/main/kotlin/phonon/nodes/objects/Warzone.kt:245 | the member names of an object, in order |
| SaveJson.LookupFirst | nodes/src/main/kotlin/phonon/nodes/objects/Warzone.kt:245 | a reader finds the first member with a given name |
| SaveJson.ControllingRoundTrip | nodes/src/main/kotlin/phonon/nodes/objects/Warzone.kt:222-232 | controlling is null iff no nation controls the zone, and reads back as the controller |
| SaveJson.StatsRoundTrip | nodes/src/main/kotlin/phonon/nodes/objects/Warzone.kt:240-242 | a statistics object has the fields total, current, longest, times; current is null iff no session is open; it decodes back to the same statistics |
| SaveJson.LookupHistoryMember | nodes/src/main/kotlin/phonon/nodes/objects/Warzone.kt:240-243 | every nation in the history is found under its own UUID text, since distinct ids have distinct texts |
| SaveJson.HistoryEntryRoundTrip | nodes/src/main/kotlin/phonon/nodes/objects/Warzone.kt:226-243 | every history entry of the snapshot reads back unchanged from the JSON |
| ControlBar.FormatDuration | nodes/src/main/kotlin/phonon/nodes/war/Warzone/WarzoneControlBar.kt:154-161 | durations under a minute, and non-positive ones, show as 0m |
| Decimal.NatToString | nodes/src/main/kotlin/phonon/nodes/war/Warzone/WarzoneControlBar.kt:157-160 | the decimal text of a number is a non-empty digit string without leading zeros that starts with 0 only for 0 |
| Decimal.ParseNatToString | nodes/src/main/kotlin/phonon/nodes/war/Warzone/WarzoneControlBar.kt:157-160 | the decimal text of a number reads back as that number |
| Decimal.NatToStringInjective | nodes/src/main/kotlin/phonon/nodes/objects/Warzone.kt:240-243 | distinct numbers have distinct decimal texts |
| Decimal.LeadingDigitPositive | nodes/src/main/kotlin/phonon/nodes/war/Warzone/WarzoneControlBar.kt:157-160 | a digit string with a non-zero leading digit reads as a positive number |
| Decimal.CanonicalParses | nodes/src/main/kotlin/phonon/nodes/war/Warzone/WarzoneControlBar.kt:157-160 | a digit string without leading zeros is the printed form of the number it reads as |
| ControlBar.FormatDurationZeroIff | nodes/src/main/kotlin/phonon/nodes/war/Warzone/WarzoneControlBar.kt:154-161 | a duration shows as 0m iff it is shorter than a minute, so the best streak is shown iff it lasted at least a minute |
| ControlBar.FormatDurationExamples | nodes/src/main/kotlin/phonon/nodes/war/Warzone/WarzoneControlBar.kt:154-161 | 0 and 59 s show 0m, 90 s shows 1m, one hour shows 1h, 90 minutes show 1h 30m |
| ControlBar.FormatDurationRoundTrip | nodes/src/main/kotlin/phonon/nodes/war/Warzone/WarzoneControlBar.kt:154-161 | the text reads back as the duration's whole minutes (0 for non-positive durations) under a reader that accepts only bare minutes below 60, whole hours, and hours with 1 to 59 minutes, without leading zeros |
| ControlBar.FormatDurationIsOnlyText | nodes/src/main/kotlin/phonon/nodes/war/Warzone/WarzoneControlBar.kt:154-161 | the formatted text is the only text that reads back as its minutes, so together with the round trip it fixes the text on every input: "90m" or "1h 30m" is decided by the reader's canonical forms |
| ControlBar.ParsedTextIsFormatted | nodes/src/main/kotlin/phonon/nodes/war/Warzone/WarzoneControlBar.kt:154-161 | every accepted text is the formatted form of the minutes it reads as |
| ControlBar.FormatWholeMinutes | nodes/src/main/kotlin/phonon/nodes/war/Warzone/WarzoneControlBar.kt:155-157 | a whole number of minutes below an hour is written as bare minutes |
| ControlBar.FormatWholeHours | nodes/src/main/kotlin/phonon/nodes/war/Warzone/WarzoneControlBar.kt:158-160 | an hour or more is written as hours, then " Mm" only when there are leftover minutes |
| ControlBar.NonCanonicalRejected | nodes/src/main/kotlin/phonon/nodes/war/Warzone/WarzoneControlBar.kt:154-161 | "90m" and "01m" are not accepted as durations |
| ControlBar.IndexOf | nodes/src/main/kotlin/phonon/nodes/war/Warzone/WarzoneControlBar.kt:160 | the first position of a character, or the length when absent |
| ControlBar.ParseSplitsUnit | nodes/src/main/kotlin/phonon/nodes/war/Warzone/WarzoneControlBar.kt:154-161 | reading a text back splits off its last character as the unit |
| ControlBar.IndexOfAfterDigits | nodes/src/main/kotlin/phonon/nodes/war/Warzone/WarzoneControlBar.kt:160 | the separator after a run of digits is found right after the run |
| ControlBar.IndexOfDigits | nodes/src/main/kotlin/phonon/nodes/war/Warzone/WarzoneControlBar.kt:160 | a digit string holds no `h` |
| ControlBar.ParseMinutesText | nodes/src/main/kotlin/phonon/nodes/war/Warzone/WarzoneControlBar.kt:157 | the text "Mm" reads back as M minutes for M below 60 |
| ControlBar.ParseHoursText | nodes/src/main/kotlin/phonon/nodes/war/Warzone/WarzoneControlBar.kt:160 | the text "Hh" reads back as H hours in minutes for H at least 1 |
| ControlBar.ParseHoursMinutesBody | nodes/src/main/kotlin/phonon/nodes/war/Warzone/WarzoneControlBar.kt:160 | the body "H" "h" " " "M" of a minutes text splits at the h into hours and minutes |
| ControlBar.ParseHoursMinutesDigits | nodes/src/main/kotlin/phonon/nodes/war/Warzone/WarzoneControlBar.kt:160 | a text of canonical hour digits (at least 1), "h ", canonical minute digits (1 to 59) and "m" reads back as hours times 60 plus minutes |
| ControlBar.MinutesUnitAfterHours | nodes/src/main/kotlin/phonon/nodes/war/Warzone/WarzoneControlBar.kt:160 | a text of hour digits, "h ", anything and "m" is read as a minutes text split at the h |
| ControlBar.ParseHoursMinutesText | nodes/src/main/kotlin/phonon/nodes/war/Warzone/WarzoneControlBar.kt:160 | the text "Hh Mm" reads back as H * 60 + M minutes for H at least 1 and M from 1 to 59 |
| ControlBar.BarFor | nodes/src/main/kotlin/phonon/nodes/war/Warzone/WarzoneControlBar.kt:117-151 | the bar's progress fraction has a positive denominator and never exceeds 1 |
| ControlBar.BarForRendering | nodes/src/main/kotlin/phonon/nodes/war/Warzone/WarzoneControlBar.kt:117-151 | an uncontrolled zone shows red, Uncontrolled, progress 0; a controlled one shows yellow, the controller, the current time (never negative) and the best streak iff it is at least a minute; progress is current over longest clamped to 1, full iff current >= longest, and 0 without a positive streak |
| ControlBar.TitleText | nodes/src/main/kotlin/phonon/nodes/war/Warzone/WarzoneControlBar.kt:125-139 | only the empty title renders as the empty text |
| ControlBar.BarTitleText | nodes/src/main/kotlin/phonon/nodes/war/Warzone/WarzoneControlBar.kt:125-139 | the title text of a rendered bar: the uncontrolled text, or zone, controller and time held, followed by "(best ...)" exactly when the longest streak lasted at least a minute |
| ControlBar.FindWarzoneFindsFirst | nodes/src/main/kotlin/phonon/nodes/war/Warzone/WarzoneControlBar.kt:111-113 | none iff no warzone lists the territory; otherwise the first warzone listing it |
| ControlBar.FindWarzone | nodes/src/main/kotlin/phonon/nodes/war/Warzone/WarzoneControlBar.kt:111-113 | a warzone found is one of the registered warzones and lists the territory |
| ControlBar.WarzoneAt | nodes/src/main/kotlin/phonon/nodes/war/Warzone/WarzoneControlBar.kt:105-113 | a player outside every territory is in no warzone; a warzone found is registered and lists the player's territory |
| ControlBar.WarzoneControlBar.constructor | nodes/src/main/kotlin/phonon/nodes/war/Warzone/WarzoneControlBar.kt:24-25 | both tables start empty |
| ControlBar.WarzoneControlBar.GetWarzoneForPlayer | nodes/src/main/kotlin/phonon/nodes/war/Warzone/WarzoneControlBar.kt:104-116 | returns the warzone the player stands in; a player outside every territory is not recorded; otherwise the result, possibly none, becomes their last-known warzone (the corrected lookup) |
| ControlBar.WarzoneControlBar.UpdateBar | nodes/src/main/kotlin/phonon/nodes/war/Warzone/WarzoneControlBar.kt:117-151 | the player's bar keeps its identity and shows the rendering of the warzone |
| ControlBar.WarzoneControlBar.OnPlayerMove | nodes/src/main/kotlin/phonon/nodes/war/Warzone/WarzoneControlBar.kt:72-95 | a move within a chunk changes nothing; a player now in a warzone keeps their bar or gets a new one, which shows that warzone, and nobody else's bar changes; anyone else loses both entries |
| ControlBar.WarzoneControlBar.OnPlayerQuit | nodes/src/main/kotlin/phonon/nodes/war/Warzone/WarzoneControlBar.kt:97-102 | the quitting player loses both entries, nobody else is affected |
| ControlBar.WarzoneControlBar.SweepPlayer | nodes/src/main/kotlin/phonon/nodes/war/Warzone/WarzoneControlBar.kt:39-51 | an online player in a warzone has the bar re-rendered and the warzone recorded; any other player's bar is left for removal |
| ControlBar.WarzoneControlBar.RemovePlayers | nodes/src/main/kotlin/phonon/nodes/war/Warzone/WarzoneControlBar.kt:53-56 | exactly the listed players lose both entries |
| ControlBar.WarzoneControlBar.CollectStale | nodes/src/main/kotlin/phonon/nodes/war/Warzone/WarzoneControlBar.kt:39-52 | re-renders every bar it keeps and collects exactly the players who are offline or outside every warzone; nothing is removed yet |
| ControlBar.SweptBar | nodes/src/main/kotlin/phonon/nodes/war/Warzone/WarzoneControlBar.kt:46-49 | a re-rendered bar keeps its handle |
| ControlBar.WarzoneControlBar.Sweep | nodes/src/main/kotlin/phonon/nodes/war/Warzone/WarzoneControlBar.kt:35-57 | afterwards exactly the bar holders who are online and in a warzone have bars, each keeps its identity and shows its warzone, and each last-known warzone is where its player stands |
| ControlBar.WarzoneControlBar.NotifyPlayer | nodes/src/main/kotlin/phonon/nodes/war/Warzone/WarzoneControlBar.kt:165-170 | one player's step of a notification: the bar and last-known warzone become NotifiedBar and NotifiedLast of the tables the notification found, and nobody else's entries change |
| ControlBar.WarzoneControlBar.NotifyChange | nodes/src/main/kotlin/phonon/nodes/war/Warzone/WarzoneControlBar.kt:163-172 | no entry is added or removed; a bar is re-rendered with the changed warzone iff its player is online and was last seen in it or stands in it now; a last-known warzone is looked up afresh only for online players not last seen there |
| ControlBar.WarzoneControlBar.Disable | nodes/src/main/kotlin/phonon/nodes/war/Warzone/WarzoneControlBar.kt:64-70 | both tables are emptied |
| ControlBar.LookupOutsideWarzonesThrows | nodes/src/main/kotlin/phonon/nodes/war/Warzone/WarzoneControlBar.kt:111-115 | as written, the lookup throws for a player standing in a territory that no warzone lists |
| ControlBar.LookupThrowsExample | nodes/src/main/kotlin/phonon/nodes/war/Warzone/WarzoneControlBar.kt:111-115 | a concrete instance: one player in territory 5 and no warzones |
| ControlBar.AsWrittenAgreesElsewhere | nodes/src/main/kotlin/phonon/nodes/war/Warzone/WarzoneControlBar.kt:104-116 | in every other case the lookup as written returns and records what the corrected lookup does |
| ControlBar.ConcurrentPut | nodes/src/main/kotlin/phonon/nodes/war/Warzone/WarzoneControlBar.kt:114 | storing null throws a NullPointerException, any other value is stored |
| ControlBar.GetWarzoneForPlayerAsWritten | nodes/src/main/kotlin/phonon/nodes/war/Warzone/WarzoneControlBar.kt:104-116 | the lookup as written throws exactly when the player stands in a territory that no warzone lists, and otherwise returns the warzone the player stands in |

## Left out

- Bukkit plumbing is not modelled: event registration, boss bar player lists, the scheduler that starts the sweep every 8 seconds, the `updateTask` guard in `enable`, and unregistering in `disable`.
- Concurrency is not modelled. The tables are concurrent hash maps, and the model runs each handler to completion.
- `printInfo` and `printLeaderboard` are not modelled as text. Their message formatting and two-decimal hour figures need floating point. The leaderboard order they print is modelled as `Ranking.Leaderboard`.
- The hour getters of `NationControlStats` are modelled as the millisecond quantities they divide by 3,600,000. The double division is not modelled.
- WarzoneData.TotalChunks: the source sums 32-bit `Int` values and the model uses unbounded integers, so overflow past 2^31 - 1 chunks is not captured. The same goes for the 64-bit `Long` millisecond arithmetic.
- The source reads the clock separately at each `System.currentTimeMillis()` call. The model reads it once per operation as `now`, so within one `updateControl` the old session ends at the same instant the new one starts.
- `sortedByDescending` evaluates the current-hours key from the clock for each comparison. The model evaluates every entry's key at one `now`.
- Warzone equality in the control bar is the data-class structural equality over the constructor fields. The model compares warzone identity, so it does not capture a bar mistaking one warzone for a distinct but equal one.
- The snapshot shares the warzone's history map rather than copying it, so later history changes show through an old snapshot. The model copies the map value, so that aliasing is not captured.
- Warzones.WarzoneSaveState.constructor: the snapshot's progress map is a new map (`mapKeys`, Warzone.kt:225), but it holds the same mutable `CaptureState` objects, so progress counts changed in place also show through an old snapshot. The model's capture states are values, so "the data at the time it is taken" holds in the model only; the source guarantees it for the name, territories, controller, start time and at-war set.
- The `jsonString` cache of the snapshot is not modelled.
- SaveJson.CreateJson: the model states the structure of the JSON value, not its exact characters. It does not model escaping of the zone name, the UUIDs' hyphenated hex text (a nation id is written as its decimal text) or whitespace.
- `Bukkit.getPlayer` returning null and `isOnline` are merged into one online oracle.
- WarzoneConfig.kt is context configuration and is not part of this model.

## Findings

| source | as written | input that shows it | evidently intended | confidence | as-written member | corrected member |
|---|---|---|---|---|---|---|
| nodes/src/main/kotlin/phonon/nodes/war/Warzone/WarzoneControlBar.kt:111-115 | `getWarzoneForPlayer` stores its lookup result with `playerLastWarzone[uuid] = warzone` even when no warzone was found, and `ConcurrentHashMap` rejects a null value with a NullPointerException | a player standing in a territory that no warzone lists, e.g. player 0 in territory 5 with no warzones; `onPlayerMove` then throws before removing the player's bar, the sweep stops at that player, and `notifyChange` (line 168) throws for such a bar holder, which leaves `updateControl` (Warzone.kt:81) stopped after the old session was closed and before the new controller is set | record that the player is in no warzone (or drop the entry) and return null | not executed | ControlBar.GetWarzoneForPlayerAsWritten, ControlBar.LookupOutsideWarzonesThrows | ControlBar.WarzoneControlBar.GetWarzoneForPlayer |
