# flixo-web page logic, modelled in Dafny

flixo-web is the Next.js front end of a Discord music bot. Its pages fetch JSON from the bot's
backend and render it. This project models the logic those pages run between a fetch and the
screen, and proves what that logic promises:

- **Command explorer** (`CommandCatalog.dfy`): the catalogue defaults to `[]`. Category tabs are
  `"all"` followed by the sorted distinct categories, where a missing or empty category counts as
  `"misc"`. The filter is a case-insensitive substring search on the name or description,
  combined with the selected tab.
- **Live session tracker** (`LiveSession.dfy`): a search probes the guild-scoped player endpoint
  first, then the user-scoped one. A found session is re-polled every five seconds. The page also
  decides when the red error banner shows, and formats times as `m:ss` with `formatTime`.
- **Top-servers carousel** (`Carousel.dfy`, for the root `page.tsx`): the slide index wraps
  modulo the list length, the arrows and dots call `goTo`, hovering pauses the carousel, and
  `intervalRef` holds the auto-advance interval. Rank icons and labels are also modelled.
- **Podium leaderboard** (`Leaderboard.dfy`, for `src/app/page.tsx`): the first ten guild ids are
  looked up and failed lookups are dropped. The result is split into three podium cards and list
  rows ranked 4 to 10.
- **Status board** (`StatusBoard.dfy`): the stats poll and its update rule, and the choice between
  spinner, outage panel and dashboard. `formatUptime` gets an inverse reader that accepts units
  only in d, h, m, s order, each a positive number with no leading zero followed by a space (or
  by the end of the text after `s`), and gives back each component. It proves that every number shown is
  its own unit's part, and that no two uptimes share a text. A missing shard list falls back to one synthesised shard, and each shard status
  code gets its label.

`Text.dfy` holds the JavaScript string operations the pages rely on:

- `String(n)` for non-negative integers;
- ASCII `toLowerCase`;
- `includes`;
- a code-point order on strings, standing for the order `Array.prototype.sort` uses.

`Sequences.dfy` holds generic facts about subsequences and distinctness. `Wrappers.dfy` holds
`Option`. `Api.dfy` holds the guild payload shared by both landing pages.

Pages whose logic only computes (the command filter, the leaderboard slices, the formatters) are
modelled as functions and lemmas. The stateful pieces are classes whose methods update fields in
place, as the React state setters do: `LiveTracker`, `Carousel` and `Board`.

Every network result is an input to the model, never a call:

| page | result datatype | cases |
|---|---|---|
| live tracker | `Probe` | `Answered(body)` or `Threw` |
| status board | `PollResult` | `Ok(body)`, `NotOk` or `Threw` |
| landing pages | per-request `Ok`/`NotOk`/`Threw` datatypes | |
| leaderboard | a lookup function | `Found`, `Null` or `Threw` for each guild |

JavaScript truthiness is written out explicitly:

- `c.category || "misc"` sends both an absent and an empty category to `"misc"`.
- `player.guildId || query` falls back on the empty id too.
- `stats.shards || [...]` treats an empty shard array as present.

The status poll (`src/app/status/page.tsx:19-21`) only ever overwrites `stats` on an OK answer.
So after one success the dashboard keeps showing the last good stats through any number of failed
polls, and the outage panel can only appear before the first success (`StatusBoard.Board.Poll`,
`StatusBoard.ReplayIsLastOk`).

## Model

| member | source | states |
|---|---|---|
| Text.NatToString | src/app/status/page.tsx:40-43 | the decimal rendering of a number is a non-empty run of digits with no leading zero, one digit exactly for numbers below ten |
| Text.DecimalRoundTrip | src/app/live/page.tsx:86 | reading a rendered number back gives the number |
| Text.NatToStringInjective | page.tsx:216 | two numbers render the same exactly when they are equal |
| Text.Lower | src/app/commands/page.tsx:35 | `toLowerCase` (ASCII) keeps the length and folds each character on its own |
| Text.Contains | src/app/commands/page.tsx:35 | `includes` holds exactly when the needle occurs at some position of the haystack |
| Text.BeforeIrreflexive | src/app/commands/page.tsx:32 | no string sorts before itself |
| Text.BeforeTransitive | src/app/commands/page.tsx:32 | the sort order is transitive |
| Text.BeforeTotal | src/app/commands/page.tsx:32 | of two different strings one sorts before the other |
| Text.BeforeAsymmetric | src/app/commands/page.tsx:32 | two strings never sort before each other |
| Sequences.DistinctFromCounts | src/app/commands/page.tsx:32 | a list in which no value occurs twice (as after `new Set`) is duplicate-free |
| CommandCatalog.LoadedCatalog | src/app/commands/page.tsx:18-21 | an OK response yields `data.commands`, and a missing list, a non-OK status or an exception yields `[]` |
| CommandCatalog.EffectiveCategory | src/app/commands/page.tsx:36 | `c.category \|\| "misc"` is never empty: a present non-empty category is kept, an absent or empty one becomes `"misc"` |
| CommandCatalog.MatchesSearch | src/app/commands/page.tsx:35 | an empty search matches every command; without a description only the lower-cased name decides |
| CommandCatalog.MatchesCategory | src/app/commands/page.tsx:36 | the `"all"` tab and the command's own tab match it, and every other tab does not |
| CommandCatalog.Filter | src/app/commands/page.tsx:34-38 | the filtered list is an order-preserving subsequence of the catalogue that keeps every matching command as many times as the catalogue holds it and drops every other one; a command is in it exactly when it is in the catalogue and matches both the search (lower-cased name, or an existing description, contains the lower-cased search) and the tab (`"all"`, or its category defaulting to `"misc"`) |
| CommandCatalog.FilterIdempotent | src/app/commands/page.tsx:34-38 | filtering the filtered list again with the same search and tab changes nothing |
| CommandCatalog.FilterShowsAll | src/app/commands/page.tsx:35-36 | an empty search on the `"all"` tab shows the whole catalogue, in order |
| CommandCatalog.FilterOnTab | src/app/commands/page.tsx:36 | on any tab other than `"all"` every shown command's effective category is that tab |
| CommandCatalog.ScenarioPlay | src/app/commands/page.tsx:34-38 | searching "pl" among `play` and `ban` shows only `play` |
| CommandCatalog.Insert | src/app/commands/page.tsx:32 | inserting into a strictly sorted list keeps it strictly sorted and adds exactly the new value |
| CommandCatalog.SortedDistinct | src/app/commands/page.tsx:32 | the distinct values of a list, strictly sorted |
| CommandCatalog.Dedup | src/app/commands/page.tsx:32 | `Array.from(new Set(xs))` holds each value of `xs` once and nothing else |
| CommandCatalog.SortedUnique | src/app/commands/page.tsx:32 | two strictly sorted lists with the same values are the same list |
| CommandCatalog.CategoryNames | src/app/commands/page.tsx:32 | `commands.map(c => c.category \|\| "misc")`, position by position |
| CommandCatalog.Categories | src/app/commands/page.tsx:32 | the tab list starts with `"all"`; the rest is strictly sorted, hence distinct, and holds a value exactly when some command's effective category is that value |
| CommandCatalog.SetThenSortIsCategories | src/app/commands/page.tsx:32 | any sorted permutation of the de-duplicated categories, whichever sort produced it, is exactly the tab list after `"all"` |
| LiveSession.SearchRequests | src/app/live/page.tsx:29-35 | a search first asks the guild endpoint for the query, and asks the user endpoint second exactly when the guild answer is neither connected nor playing |
| LiveSession.RepollTarget | src/app/live/page.tsx:66 | the re-poll asks for the player's `guildId` when it is a non-empty string, and for the query otherwise |
| LiveSession.SearchAnswer | src/app/live/page.tsx:29-35 | the search settles on the guild answer unless that answer is neither connected nor playing, in which case it settles on the user answer; a thrown guild probe ends the search as thrown |
| LiveSession.SearchOutcome | src/app/live/page.tsx:37-45 | a found player describes a live session and comes with no error; without a player the error is one of the two messages, and it is the backend message exactly when the settled answer threw |
| LiveSession.ErrorBannerShown | src/app/live/page.tsx:151 | the banner shows only with an error and no player, and never while loading or without an error |
| LiveSession.SearchTracksIff | src/app/live/page.tsx:37-41 | a search ends with a player exactly when the answer it settles on describes a session (connected, playing or with a track); that answer becomes the player and the error is cleared |
| LiveSession.SearchOutcomeExclusive | src/app/live/page.tsx:37-45 | a search ends with either a player or an error message, never both and never neither; the message is one of the two the page defines |
| LiveSession.SearchNotFound | src/app/live/page.tsx:32-41 | when neither endpoint knows a session the search ends with no player and "No active music session found for this ID." |
| LiveSession.SearchThrew | src/app/live/page.tsx:42-43 | a thrown probe that the search waits on ends it with no player and "Failed to connect to the backend server." |
| LiveSession.FallbackIgnoresCurrentTrack | src/app/live/page.tsx:32-35 | the fallback decision ignores `currentTrack`: for any query, giving the guild answer a track changes neither the requests nor the outcome |
| LiveSession.GuildAnswerWins | src/app/live/page.tsx:32-38 | a connected or playing guild answer is tracked at once and the user endpoint is never asked |
| LiveSession.LiveTracker.constructor | src/app/live/page.tsx:15-18 | the tracker starts with an empty query, no player, not loading and no error |
| LiveSession.LiveTracker.SetQuery | src/app/live/page.tsx:15 | typing replaces the query and keeps the invariant that a tracked player is a live session with no error beside it |
| LiveSession.LiveTracker.Search | src/app/live/page.tsx:21-47 | an empty query changes nothing and issues no request; otherwise the requests are `SearchRequests`, loading ends false, player and error are `SearchOutcome`, and the banner shows exactly when no player was found |
| LiveSession.LiveTracker.Repoll | src/app/live/page.tsx:60-76 | without a player nothing is requested or changed; with one, its guild id (or the query) is asked for; a thrown re-poll changes nothing, a live answer replaces the player, and a dead one clears it with "Music session ended." |
| LiveSession.LiveTracker.BannerShownIff | src/app/live/page.tsx:151 | under the tracker's invariant the banner shows exactly when there is an error and nothing is loading |
| LiveSession.PadStart2 | src/app/live/page.tsx:86 | a string of two or more characters is left as it is |
| LiveSession.PadStart2Short | src/app/live/page.tsx:86 | a shorter string becomes exactly two characters, zeros followed by the string |
| LiveSession.FormatTime | src/app/live/page.tsx:81-87 | the time text always ends in a colon and two characters |
| LiveSession.TwoDigits | src/app/live/page.tsx:86 | a padded number below one hundred is exactly two digits that read back as the number |
| LiveSession.ReadsBackAroundColon | src/app/live/page.tsx:86 | in `minutes:seconds` with two-character seconds, both halves can be cut back out at the colon and read back as the numbers they spell |
| LiveSession.FormatTimeReadsBack | src/app/live/page.tsx:81-87 | the text before the colon reads back as `ms div 1000 div 60`, with no wrap into hours and no leading zero; the two digits after it read back as `ms div 1000 mod 60`; zero, the special case, agrees ("0:00"), so the text is the one `${m}:${ss}` spells |
| Carousel.Wrap | page.tsx:56 | `(index + n) % n` for `index >= -n` lies in `[0, n)`, maps `-1` to `n - 1`, leaves an in-range index alone and maps `n` to 0 |
| Carousel.WrapEnds | page.tsx:55-61 | "previous" from slide 0 lands on the last slide and "next" from the last slide lands on slide 0 |
| Carousel.ScenarioNextFromNine | page.tsx:56 | with ten servers, "next" from slide 9 goes to slide 0 |
| Carousel.ClearCurrent | page.tsx:57 | `clearInterval(intervalRef.current)` stops the handle in the ref (if any) and changes nothing else; the ref keeps the stale handle |
| Carousel.Arm | page.tsx:58-60 | `setInterval` starts one fresh interval and the ref holds it; every interval already running keeps running and the cleanup flag is unchanged |
| Carousel.GoToTimers | page.tsx:57-60 | from a state with at most one interval, `goTo` leaves exactly one interval running, a fresh one held by the ref, paused or not |
| Carousel.EffectAsWritten | page.tsx:47-53 | the effect as written returns a cleanup exactly when it starts an interval (non-empty and not paused); it then starts a fresh interval and the ref holds it; the previous run's cleanup, if returned, stops the interval in the ref; without one it stops nothing; it starts at most one interval, and none for an empty list or while paused |
| Carousel.UnmountAsWritten | page.tsx:47-53 | unmounting as written changes nothing when the last run returned no cleanup, never starts an interval, and otherwise stops the one in the ref |
| Carousel.TimerLeakAsWritten | page.tsx:47-53 | the auto-advance effect as written leaks an interval: after hover, click and leave two intervals run, and one survives unmounting |
| Carousel.EffectFixed | page.tsx:47-53 | with a cleanup returned on every run, at most one interval runs; none runs for an empty list or while paused, and otherwise exactly one fresh one runs |
| Carousel.UnmountFixed | page.tsx:52 | with the corrected effect, unmounting stops every interval |
| Carousel.NoLeakFixed | page.tsx:47-60 | the same hover, click and leave sequence leaves exactly one interval, and none after unmounting |
| Carousel.GetRankIcon | page.tsx:70-75 | the crown exactly for slide 0, the silver trophy exactly for slide 1, the bronze trophy exactly for slide 2, and `#i+1` exactly from the fourth slide on |
| Carousel.RankLabel | page.tsx:216 | "Top Server", "2nd Place" and "3rd Place" for the first three slides, then "Rank #" followed by digits that read back as `i + 1` |
| Carousel.RankLabelInjective | page.tsx:216 | the rank badges "Top Server", "2nd Place", "3rd Place" and "Rank #i+1" are all different |
| Carousel.ShowcaseView | page.tsx:186-188 | the spinner shows exactly while loading, and slides (one per server) exactly when loading is done and the list is non-empty |
| Carousel.Carousel.constructor | page.tsx:10-15 | the first render has no servers, is loading, is on slide 0, is not paused and runs no interval |
| Carousel.Carousel.Load | page.tsx:33-41 | an OK answer stores `servers \|\| []` and re-runs the effect; any other outcome keeps the empty list; loading is false afterwards and the slide index stays valid |
| Carousel.Carousel.SetPaused | page.tsx:196-197 | hovering or leaving sets `isPaused`; only a change re-runs the effect; pausing stops every interval |
| Carousel.Carousel.GoTo | page.tsx:55-61 | the slide becomes `(index + n) % n` and exactly one fresh interval runs |
| Carousel.Carousel.Previous | page.tsx:257 | the left arrow moves back one slide, from the first to the last |
| Carousel.Carousel.Next | page.tsx:289 | the right arrow moves forward one slide, from the last to the first |
| Carousel.Carousel.Tick | page.tsx:49-51 | a running interval advances the slide to `(activeIndex + 1) % n`, keeping it in `[0, n)` |
| Carousel.Carousel.Teardown | page.tsx:52 | leaving the page stops every interval |
| Leaderboard.TopIds | src/app/page.tsx:33 | the ids looked up are the first `min(n, 10)` in backend order |
| Leaderboard.LookUp | src/app/page.tsx:34-39 | one lookup per id, in id order |
| Leaderboard.Survivors | src/app/page.tsx:40 | the kept guilds are exactly the ones found, and there are no more of them than lookups |
| Leaderboard.SurvivorsAppend | src/app/page.tsx:40 | dropping nulls works piecewise, so the found guilds keep their relative order |
| Leaderboard.SurvivorsSingle | src/app/page.tsx:37-40 | a single found lookup survives and a null one vanishes |
| Leaderboard.LoadTopGuilds | src/app/page.tsx:29-41 | at most ten guilds, each the answer to one of the first ten ids; none when the id list is missing, the request fails or any lookup throws; otherwise exactly the found guilds among the first ten lookups, in id order |
| Leaderboard.Top3 | src/app/page.tsx:52 | the podium is the first `min(n, 3)` guilds |
| Leaderboard.Remaining | src/app/page.tsx:53 | the list rows are the guilds at positions 3 up to `min(n, 10)` |
| Leaderboard.PodiumSplit | src/app/page.tsx:52-53 | podium followed by list rows is exactly the first `min(n, 10)` guilds |
| Leaderboard.RowRank | src/app/page.tsx:240 | list row `i` shows `i + 4`, one past the three podium places |
| Leaderboard.RowRankIsPosition | src/app/page.tsx:240 | list row `i` shows `i + 4`, the guild's 1-based position in the leaderboard, between 4 and 10 |
| Leaderboard.PodiumBadgeAt | src/app/page.tsx:198 | the crown exactly for the first podium card, the silver trophy exactly for the second and the bronze trophy for the third |
| Leaderboard.BoardView | src/app/page.tsx:173-228 | spinner exactly while loading, the empty panel exactly when loading is done and there are no guilds, otherwise podium and rows, with the list rendered exactly when there are more than three guilds |
| StatusBoard.Step | src/app/status/page.tsx:19-21 | one poll sets `stats` to the body of an OK answer and leaves it alone otherwise, so held stats are never lost |
| StatusBoard.Replay | src/app/status/page.tsx:15-29 | over a run of polls held stats stay held, a run without an OK answer changes nothing, and what is shown is the start or the body of some OK poll |
| StatusBoard.LastOkIsLastSuccess | src/app/status/page.tsx:19-21 | the reference reading finds a successful poll exactly when one happened, and it is the last success |
| StatusBoard.ReplayIsLastOk | src/app/status/page.tsx:15-29 | after any run of polls `stats` is the body of the last OK poll, or what it was before when there was none, so failures never clear it |
| StatusBoard.ReplaySnoc | src/app/status/page.tsx:15-26 | one more poll applies the update rule once more |
| StatusBoard.DisplayFor | src/app/status/page.tsx:90-105 | spinner exactly while loading, outage exactly when loading is done and no stats are held, the dashboard of the held stats otherwise |
| StatusBoard.Board.constructor | src/app/status/page.tsx:11-12 | the page starts without stats and showing the spinner |
| StatusBoard.Board.Poll | src/app/status/page.tsx:15-26 | a poll overwrites `stats` only on OK and always ends loading; held stats are never lost; the page then shows the outage panel or the dashboard |
| StatusBoard.Decompose | src/app/status/page.tsx:35-38 | days, hours below 24, minutes below 60 and seconds below 60 that sum back to the total |
| StatusBoard.DecomposeSums | src/app/status/page.tsx:35-38 | the floor and remainder steps of `formatUptime` yield components in range that add up to the input |
| StatusBoard.FormatUptime | src/app/status/page.tsx:33-45 | any positive uptime gives a non-empty text (what the text spells is stated by `StatusBoard.FormatUptimeReadsClock`) |
| StatusBoard.ZeroUptimeReadsBack | src/app/status/page.tsx:34 | zero seconds reads "0s", which reads back as four zero components, hence zero seconds |
| StatusBoard.ParsePart | src/app/status/page.tsx:40-43 | one component in front of the rest of the text lands in its own unit's field of the clock read back; a zero component is not shown and contributes nothing |
| StatusBoard.SecondsReadBack | src/app/status/page.tsx:43 | the seconds component reads back as a clock with only those seconds |
| StatusBoard.MinutesReadBack | src/app/status/page.tsx:42-43 | minutes then seconds read back as exactly those minutes and seconds |
| StatusBoard.HoursReadBack | src/app/status/page.tsx:41-43 | hours, minutes and seconds read back as exactly those three components |
| StatusBoard.PartsReadBack | src/app/status/page.tsx:40-44 | the four components in d, h, m, s order read back as exactly those four components |
| StatusBoard.FormatUptimeReadsClock | src/app/status/page.tsx:33-45 | every uptime text, read with units required in d, h, m, s order, gives back exactly the days, hours, minutes and seconds `formatUptime` computed, so each number shown is its own unit's part |
| StatusBoard.FormatUptimeRoundTrip | src/app/status/page.tsx:33-45 | every uptime text reads back as the seconds it came from |
| StatusBoard.FormatUptimeInjective | src/app/status/page.tsx:33-45 | two uptimes show the same text exactly when they are equal |
| StatusBoard.OutOfOrderRejected | src/app/status/page.tsx:40-44 | the reader accepts only the spelling `formatUptime` uses: seconds before minutes, minutes twice, a missing space after a unit, a leading zero and a zero component are all rejected |
| StatusBoard.UptimeText | src/app/status/page.tsx:133 | the uptime card reads back as the components of the uptime and as the uptime itself, or as 0 when it is absent, which shows "0s" |
| StatusBoard.UnitShownIff | src/app/status/page.tsx:40-43 | each unit letter appears in the uptime text exactly when its component is positive |
| StatusBoard.ShardsOf | src/app/status/page.tsx:171 | a present shard list (even an empty one) is shown as it is; without one, exactly one shard is shown: id 0, "Online", the aggregate ping, servers and users |
| StatusBoard.ShardIdShown | src/app/status/page.tsx:175 | `shard.id ?? 0`: the shard's id when present, 0 otherwise |
| StatusBoard.Heartbeat | src/app/status/page.tsx:185 | `shard.ping ?? 0`: the shard's ping when present, 0 otherwise |
| StatusBoard.ShardStatusLabel | src/app/status/page.tsx:178 | status 0 reads "Online", 1 reads "Connecting", anything else (absent included) reads "Offline", each exactly in its case |

## Left out

- Rendering: JSX, Tailwind classes, framer-motion variants and transitions. Nothing to state there.
- Real `fetch` and `res.json()`, the `/api/bot` relay (`src/app/api/bot/route.ts`) and the
  `/api-proxy` rewrite with its caching (`next.config.ts`). The model takes their outcomes as
  inputs instead.
- Timer durations (3.5 s, 5 s, 10 s) and the order in which responses resolve. One tick or one
  poll is one explicit step, so overlapping searches, or responses arriving after teardown, are
  not modelled. This includes a second search started with Enter while one is in flight.
- `LiveSession.LiveTracker.Search` runs the whole search as one step. The intermediate render,
  with `loading` true and player and error cleared, is not a separate state.
- Floating point and locale formatting: `formatNumber`, the progress-bar percentage,
  `Intl.NumberFormat` compact numbers and `toLocaleString`.
- `Text.Lower`: ASCII case folding only. `toLowerCase` also folds non-ASCII letters.
- `Text.Before` compares characters as code points. JavaScript's sort compares UTF-16 code
  units, and the two orders differ only outside the Basic Multilingual Plane.
- `LiveSession.FormatTime` and `StatusBoard.FormatUptime` take non-negative whole numbers of
  milliseconds and seconds. Negative, fractional and `NaN` values are not modelled; an absent
  uptime is read as 0, as `!seconds` does.
- `Carousel.Wrap` requires `index >= -n`. JavaScript's `%` would give a negative index below
  that, but the arrows and dots never pass such a value.
- `Carousel.Carousel.Load` requires that it runs once, at mount, before any server is loaded, as
  `loadStats` does.
- `Carousel.Carousel`'s methods use the corrected effect (see Findings). The as-written effect is
  modelled beside it as `Carousel.EffectAsWritten` and `Carousel.UnmountAsWritten`.
- `StatusBoard.Board.Poll`: an OK answer whose body is JSON `null` would set `stats` to null and
  show the outage panel. The model's OK answer always carries a stats object.
- The status page's `compactNumber`, the live page's global music-stats poll, the landing stats
  counters, the bot metadata fetch, the team page's avatar loop, the command copy button, and the
  navbar, footer, layout, privacy and terms pages. These are I/O or static markup.

## Findings

| source | as written | input that shows it | evidently intended | confidence | as-written member | corrected member |
|---|---|---|---|---|---|---|
| page.tsx:47-53 | The auto-advance effect returns early while paused and returns no cleanup. `goTo` always arms a new interval (page.tsx:57-60). If `goTo` runs while the carousel is paused, that interval is never cleared: the next effect run starts a second one, and unmounting clears only the last. | Five servers loaded; hover the carousel, click an arrow, move the mouse away. Two intervals advance the slides, and one keeps running after leaving the page. | At most one auto-advance interval at any time, and none after teardown. | not executed | Carousel.TimerLeakAsWritten | Carousel.EffectFixed |
