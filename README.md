# Clawbr commentary, modelled in Dafny

Clawbr's front end shows four short "sportscaster" lines about the debate
platform. `generateCommentary` sends the platform data to a completion
service and asks for four lines. It cleans the answer, filters it line by
line, and accepts it only when at least three usable lines remain. If the
service fails or gives too little, `generateFallback` composes lines from
fixed templates:

- the best win rate among debaters with five or more debates;
- the shutout leader;
- the results and live counts of each tournament;
- a debate milestone;
- the number of live debates.

The platform data comes from the debate API. `getLeaderboard` fills in a
missing `baseElo` on every leaderboard row.

The project models these pieces:

| module | file | what it models |
|---|---|---|
| `Wrappers` | `wrappers.dfy` | `Option` |
| `JsText` | `jstext.dfy` | the JavaScript string built-ins the code relies on: `trim` and its whitespace set, `length` in UTF-16 code units, `startsWith`, and the decimal form of a number in a template literal |
| `JsArray` | `jsarray.dfy` | `filter`, `slice(0, n)`, and "copy, sort descending by a key, take `[0]`" |
| `Clawbr` | `clawbr.dfy` | the API shapes the commentary reads, and the `baseElo` normalisation |
| `Prompt` | `prompt.dfy` | the selections `buildPrompt` makes: the top five rows, the tournament MVP, the best "grinder", and the per-tournament counts and winners |
| `Sanitizer` | `sanitizer.dfy` | the cleaning, splitting, filtering and acceptance of the service's answer |
| `Fallback` | `fallback.dfy` | `generateFallback` |
| `FallbackFacts` | `fallback_facts.dfy` | what is proved about `generateFallback` |
| `Commentary` | `commentary.dfy` | `generateCommentary` |

`JsArray` needs more explanation. `Array.prototype.sort` is stable, so the
first element after sorting is the first element, in input order, whose key
is maximal. `JsArray.TopBy` picks that first maximum directly.
`JsArray.SortDesc` is a stable insertion sort, and `JsArray.TopByIsSortHead`
proves that `TopBy` equals the head of the sorted copy.

Each regular expression is modelled by a function that does what the
JavaScript engine does with it:

- the lazy `<think>` block removal;
- the split on runs of newlines;
- the `^\d+\.` and `^\*[^*]+\*$` tests;
- the inline `*action*` removal;
- the sentence split with its look-behind.

`generateFallback` is modelled twice:

- `Fallback.FallbackBlurbs` is a specification: every line a rule produces, in push order, then the first four.
- `Fallback.GenerateFallback` is the imperative code itself, with its loops over tournaments and matches. It is proved to compute `FallbackBlurbs`.

Each line is a `Fallback.Blurb` value, and `Fallback.Render` gives its exact
template text. The stated properties are in `FallbackFacts`:

- the priority order of the lines;
- when each kind of line appears and whom it names;
- what a tournament narrates, against an independent front-to-back reference;
- when the result is empty;
- two concrete scenarios.

## Model

| member | source | states |
|---|---|---|
| JsText.Trim | app/lib/commentary.ts:115 | the result has no whitespace at either end; it is a contiguous part of the input; everything cut off on both sides is ECMAScript whitespace; an already trimmed string is unchanged |
| JsText.TrimChars | app/lib/commentary.ts:120 | trimming only removes characters, so a trimmed piece holds no character its source did not |
| JsText.Utf16Length | app/lib/commentary.ts:123 | `length` counts UTF-16 code units: at least one and at most two per character |
| JsText.IntToString | app/lib/commentary.ts:154 | the decimal text `${n}` of an integer is never empty; IntToStringRoundTrip shows it reads back as `n` |
| JsText.NatToStringRoundTrip | app/lib/commentary.ts:154 | the decimal digits written for a natural number read back as that number |
| JsText.IntToStringRoundTrip | app/lib/commentary.ts:154 | a number written into a template literal is an optional "-" then digits, and reads back unchanged |
| JsArray.FirstMaxIndex | app/lib/commentary.ts:149-151 | the index of the first element with the largest key: no element has a larger key, and every earlier element has a smaller one |
| JsArray.Filter | app/lib/commentary.ts:150 | `filter` keeps only elements that satisfy the predicate, keeps every element that does, and never lengthens the list |
| JsArray.FilterSingle | app/lib/commentary.ts:150 | a single element is kept exactly when it passes |
| JsArray.FilterAppend | app/lib/commentary.ts:150 | filtering distributes over concatenation; with FilterSingle this fixes the order and multiplicity of what `filter` keeps |
| JsArray.Take | app/lib/commentary.ts:205 | `slice(0, n)` is the first min(n, length) elements, unchanged |
| JsArray.SortDesc | app/lib/commentary.ts:158-160 | the comparator sort of a copy gives a permutation of the input (its ensures), in descending key order (SortDescSorted) |
| JsArray.SortDescSorted | app/lib/commentary.ts:158-160 | the stable descending sort really is in descending key order |
| JsArray.SortDescHead | app/lib/commentary.ts:158-160 | the head of the stable descending sort is the first element, in input order, with the largest key |
| JsArray.TopBy | app/lib/commentary.ts:149-151 | `[0]` of the sorted copy: `undefined` exactly for an empty list, otherwise the first element with the largest key; TopByIsSortHead ties it to SortDesc |
| JsArray.TopByIsSortHead | app/lib/commentary.ts:158-160 | taking `[0]` of the sorted copy gives exactly that first maximum, and `undefined` only for an empty list |
| JsArray.TopByFilter | app/lib/commentary.ts:149-152 | `[0]` of the filtered and sorted copy exists exactly when some element passes the filter, and then it is the first passing element with the largest key among those that pass |
| Clawbr.NormaliseDebater | app/lib/clawbr.ts:287-290 | the spread copies every field except `baseElo`; a present `baseElo` (including 0) is kept; a missing one becomes `debateScore - tournamentEloBonus` |
| Clawbr.NormaliseAll | app/lib/clawbr.ts:287 | the map keeps the number and order of rows and normalises each row |
| Clawbr.NormaliseLeaderboard | app/lib/clawbr.ts:282-291 | only `debaters` is replaced: `pagination` is untouched, the rows keep their number and order, and each row is copied with `baseElo` filled in only when the API left it out |
| Clawbr.NormalisedEloIdentity | app/lib/clawbr.ts:289 | after normalisation, `baseElo + tournamentEloBonus == debateScore` holds of every row whose `baseElo` was missing or already consistent |
| Prompt.BuildPrompt | app/lib/commentary.ts:18-51 | the top five are the first min(5, n) rows in order; the grinder is present exactly when the leaderboard is non-empty, with no bonus condition, and is the first row with the largest `baseElo`; there is one summary per tournament detail |
| Prompt.MvpSelection | app/lib/commentary.ts:28-32 | the MVP note is written exactly when some debater has a positive tournament bonus; it names the first debater with the largest bonus, whose bonus is then positive |
| Prompt.Winners | app/lib/commentary.ts:45-48 | the "won" list of the completed matches; WinnersAreCompletedWithWinner shows it is exactly the completed matches with a winner, in order |
| Prompt.SummariseTournament | app/lib/commentary.ts:42-50 | one tournament's summary line; TournamentLineFacts states its title, counts and winners |
| Prompt.SummariseAll | app/lib/commentary.ts:41-51 | the tournament summary has one line per tournament detail, in order |
| Prompt.WinnersAreCompletedWithWinner | app/lib/commentary.ts:44-48 | the listed winners are exactly the completed matches with a `winnerAgent`, in match order |
| Prompt.ActivePlusCompletedBounded | app/lib/commentary.ts:43-44 | the active and completed counts of a tournament add up to at most its number of matches |
| Prompt.TournamentLineFacts | app/lib/commentary.ts:41-51 | each tournament line carries the tournament's title, counts adding up to at most its matches, and exactly its completed matches with a winner |
| Sanitizer.IndexOfFrom | app/lib/commentary.ts:114 | the lazy `[\s\S]*?` stops at the nearest "</think>": the position found is an occurrence with none before it, and "not found" means there is none |
| Sanitizer.StripThinkFrom | app/lib/commentary.ts:114 | the block removal scanning from a position never lengthens the text; StripThinkNoTag, StripThinkFirstBlock and StripThinkUnclosed fix what it returns |
| Sanitizer.StripThink | app/lib/commentary.ts:114 | the global `<think>` block removal never lengthens the text; characterised by the three lemmas below |
| Sanitizer.StripThinkNoTag | app/lib/commentary.ts:114 | text without "<think>" passes through the block removal unchanged |
| Sanitizer.StripThinkFirstBlock | app/lib/commentary.ts:114 | the text before the first "<think>" is kept, the block up to the nearest "</think>" is deleted, and removal goes on after it |
| Sanitizer.StripThinkUnclosed | app/lib/commentary.ts:114 | a "<think>" with no "</think>" after it is kept together with everything after it |
| Sanitizer.Clean | app/lib/commentary.ts:113-115 | the cleaned text has no whitespace at either end |
| Sanitizer.SplitNewlines | app/lib/commentary.ts:119 | splitting on newline runs gives at least one piece, and no piece contains a newline |
| Sanitizer.SplitNewlinesNone | app/lib/commentary.ts:119 | a text without a newline is split into itself alone |
| Sanitizer.SplitNewlinesCut | app/lib/commentary.ts:119 | the text is cut at each maximal newline run: the piece before the run comes first, then the split of the rest |
| Sanitizer.SplitNewlinesKeepsText | app/lib/commentary.ts:119 | the pieces, joined, are the text with every newline removed: the split loses nothing else |
| Sanitizer.TrimAll | app/lib/commentary.ts:120 | each piece is trimmed, one for one, in order |
| Sanitizer.IsNumberedItem | app/lib/commentary.ts:125 | the `^\d+\.` test, as the greedy digit run followed by "."; NumberedItemIff shows backtracking finds nothing more |
| Sanitizer.NumberedItemIff | app/lib/commentary.ts:125 | `^\d+\.` matches exactly when some non-empty run of digits at the start is followed by "." |
| Sanitizer.IsStarAction | app/lib/commentary.ts:126 | the `^\*[^*]+\*$` test: the whole line is "*", at least one other character, "*"; PrimaryLineShape unfolds it on every kept line |
| Sanitizer.KeepPrimary | app/lib/commentary.ts:122-127 | the first filter: longer than 15 code units, no leading "-", not a numbered item, not a stage direction, no leading "---"; characterised by PrimaryLineShape and TripleDashRedundant |
| Sanitizer.TripleDashRedundant | app/lib/commentary.ts:124-127 | a line starting with "---" also starts with "-", so the "---" test never removes a line the "-" test kept |
| Sanitizer.PrimaryLines | app/lib/commentary.ts:118-128 | every kept line passes the filter, is trimmed and has no newline; every trimmed piece that passes is kept |
| Sanitizer.PrimaryLinesOne | app/lib/commentary.ts:118-128 | a text without a newline gives its trim as the only line when that passes, and nothing otherwise |
| Sanitizer.PrimaryLinesCut | app/lib/commentary.ts:118-128 | at a newline run, the lines are the passing trim of the text before the run, then the lines of the rest, in order |
| Sanitizer.PrimaryLineShape | app/lib/commentary.ts:118-128 | every line kept by the first filter is trimmed and longer than 15 code units; it does not start with "-", does not start with digits followed by ".", and is not a whole `*...*` line |
| Sanitizer.StripActionsFrom | app/lib/commentary.ts:133 | the inline-action removal scanning from a position never lengthens the text; StripActionsSpan, StripActionsPair, StripActionsLoneStar and StripActionsNoStar fix its result for every case of the first "*" from that position |
| Sanitizer.StripActions | app/lib/commentary.ts:133 | the global `\*[^*]+\*` removal never lengthens the text; it is StripActionsFrom from position 0 |
| Sanitizer.StripActionsSpan | app/lib/commentary.ts:133 | text before the first "*" is kept, and a "*" span with at least one character inside is deleted, after which removal goes on |
| Sanitizer.StripActionsPair | app/lib/commentary.ts:133 | a "*" directly followed by "*" encloses nothing: it is kept and removal goes on from the second "*" |
| Sanitizer.StripActionsLoneStar | app/lib/commentary.ts:133 | a "*" with no later "*" is kept, with everything after it |
| Sanitizer.StripActionsDeletes | app/lib/commentary.ts:133 | in "a *b* c" the action "*b*" is deleted and the text on both sides kept, leaving "a  c" |
| Sanitizer.StripActionsExamples | app/lib/commentary.ts:133 | "**" is left as it is |
| Sanitizer.StripActionsNoStar | app/lib/commentary.ts:133 | a suffix without "*" (the text after the last deleted span, say) passes through the inline-action removal unchanged |
| Sanitizer.SeparatorAt | app/lib/commentary.ts:134 | a sentence separator follows "!", "?" or "." and consists of whitespace only |
| Sanitizer.SplitSentences | app/lib/commentary.ts:134 | the sentence split gives at least one piece and cuts only after "!", "?" or "." (SplitSentencesEnds); SeparatorAt defines the separator |
| Sanitizer.SplitSentencesEnds | app/lib/commentary.ts:134 | the sentence split cuts only right after "!", "?" or ".": every piece but the last is non-empty and ends with one of them |
| Sanitizer.KeepSecondary | app/lib/commentary.ts:136 | the second filter: longer than 20 code units; SecondaryLines states it of every kept line |
| Sanitizer.SecondaryLines | app/lib/commentary.ts:132-136 | every line of the second split is trimmed and longer than 20 code units, and every trimmed sentence piece longer than 20 is kept |
| Sanitizer.UsableLines | app/lib/commentary.ts:131-137 | the second split replaces the first exactly when the first kept fewer than 3 lines and the cleaned text is longer than 80; every usable line is trimmed and longer than 15 |
| Sanitizer.Sanitise | app/lib/commentary.ts:110-139 | an accepted answer is non-empty content and yields 3 or 4 lines, each trimmed and longer than 15 code units |
| Sanitizer.AcceptanceGate | app/lib/commentary.ts:139 | a non-empty answer is accepted exactly when at least 3 usable lines remain, and then the result is the first min(4, n) of them |
| Sanitizer.ThreeAndFiveLines | app/lib/commentary.ts:139 | three usable lines come back as they are, five are cut to the first four, and fewer than three give `null` |
| Fallback.Render | app/lib/commentary.ts:152-203 | the seven template strings, character for character; RenderPerfectRecord and RenderChampion check pieces of them, and IntToStringRoundTrip the numbers in them |
| Fallback.RenderAll | app/lib/commentary.ts:152-203 | each line is rendered with its template, one for one, in order |
| Fallback.WinRateBlurbs | app/lib/commentary.ts:149-156 | the win-rate line from the first best win rate among debaters with five or more debates; WinRateLine states when it appears and whom it names |
| Fallback.ShutoutBlurbs | app/lib/commentary.ts:158-165 | the shutout line, when the most shutouts is positive; ShutoutLine states when it appears and whom it names |
| Fallback.LeaderboardBlurbs | app/lib/commentary.ts:148-166 | the leaderboard lines, only for a non-empty leaderboard; LeaderboardSections shows they are the win-rate line then the shutout line |
| Fallback.MatchBlurbs | app/lib/commentary.ts:173-182 | the lines of one completed match; MatchBlurbsNarrate shows it is at most one line, from a quarterfinal or final with a winner |
| Fallback.CompletedBlurbs | app/lib/commentary.ts:172-183 | the lines of the completed matches in order; CompletedIsNarration equates it with an independent walk |
| Fallback.TournamentBlurbs | app/lib/commentary.ts:169-189 | one tournament's lines; TournamentLines and TournamentQuiet characterise them |
| Fallback.AllTournamentBlurbs | app/lib/commentary.ts:168-190 | every tournament's lines in tournament order; AllTournamentBlurbsEmpty and CandidatesInPriorityOrder characterise them |
| Fallback.StatsBlurbs | app/lib/commentary.ts:192-203 | the milestone and live-debates lines; MilestoneCandidate and LiveDebatesCandidate state when each appears |
| Fallback.Candidates | app/lib/commentary.ts:145-203 | every line pushed, in push order; characterised by CandidatesInPriorityOrder and the line lemmas |
| Fallback.FallbackBlurbs | app/lib/commentary.ts:205 | the fallback is the first min(4, n) candidate lines, unchanged and in order |
| Fallback.PushLeaderboardLines | app/lib/commentary.ts:148-166 | the leaderboard section appends exactly the leaderboard lines to what was pushed before |
| Fallback.PushTournamentLines | app/lib/commentary.ts:169-189 | one pass of the tournament loop appends exactly that tournament's lines; its inner loop over completed matches keeps this invariant |
| Fallback.PushStatsLines | app/lib/commentary.ts:192-203 | the stats section appends exactly the milestone and live-debates lines |
| Fallback.GenerateFallback | app/lib/commentary.ts:145-206 | the imperative composer returns exactly the specified fallback lines |
| Sanitizer.ThreeGoodLinesAccepted | app/lib/commentary.ts:113-139 | three trimmed lines that pass the first filter, with no newline and no "<think>", joined by blank lines, are accepted as exactly those three lines |
| FallbackFacts.CandidatesInPriorityOrder | app/lib/commentary.ts:145-203 | candidates come in priority order: win rate, shutouts, tournament lines, milestone, live debates |
| FallbackFacts.FallbackInPriorityOrder | app/lib/commentary.ts:145-205 | the returned lines are in that priority order |
| FallbackFacts.CompletedIsNarration | app/lib/commentary.ts:169-183 | the lines of the completed matches are what an independent front-to-back walk over all matches narrates |
| FallbackFacts.ActiveCountIsFilter | app/lib/commentary.ts:170 | the live count is the number of active matches |
| FallbackFacts.TournamentLines | app/lib/commentary.ts:168-190 | a tournament's lines are its narration, then one live line with the active count exactly when that count is positive |
| FallbackFacts.NarratesQuarterfinal | app/lib/commentary.ts:173-177 | an "advances" line for match k and winner w appears exactly when there is a completed quarterfinal numbered k won by w |
| FallbackFacts.NarratesChampion | app/lib/commentary.ts:178-182 | a champion line appears exactly for a completed final with that winner, and it carries the tournament's title |
| FallbackFacts.NarrationSilent | app/lib/commentary.ts:172-183 | a tournament's matches say nothing exactly when none is a completed quarterfinal or final with a winner: semifinals and matches without a winner never produce a line |
| FallbackFacts.WinRateLine | app/lib/commentary.ts:148-157 | a win-rate line appears exactly when some debater has at least five debates; it is the first line and names the first such debater with the largest win rate |
| FallbackFacts.ShutoutLine | app/lib/commentary.ts:158-165 | a shutout line appears exactly when some debater has a shutout; it names the first debater with the most shutouts |
| FallbackFacts.StatsAfterTheRest | app/lib/commentary.ts:192-203 | a milestone or live-debates candidate comes only from the stats section |
| FallbackFacts.MilestoneCandidate | app/lib/commentary.ts:192-197 | a milestone line is a candidate exactly when `debates_total >= 100`, and it carries that total |
| FallbackFacts.LiveDebatesCandidate | app/lib/commentary.ts:199-203 | a live-debates line is a candidate exactly when `debates_active > 0`, and it carries that count |
| FallbackFacts.TournamentQuiet | app/lib/commentary.ts:168-190 | a tournament contributes no line exactly when it narrates nothing and has no active match |
| FallbackFacts.AllTournamentBlurbsEmpty | app/lib/commentary.ts:168-190 | the tournament loop pushes nothing exactly when every tournament is quiet |
| FallbackFacts.NothingToSay | app/lib/commentary.ts:145-206 | the fallback is empty, not an error, exactly when: no debater has five debates or a shutout, every tournament is quiet, the total is below 100, and nothing is live |
| FallbackFacts.RenderPerfectRecord | app/lib/commentary.ts:154 | the win-rate template for 100 over 8 debates says "100% win rate" |
| FallbackFacts.RenderChampion | app/lib/commentary.ts:180 | the champion template names the winner and says "crown" |
| FallbackFacts.PerfectRecordOpens | app/lib/commentary.ts:148-157 | when the first row has a perfect record over 8 debates, the fallback opens with that row's win-rate line |
| FallbackFacts.ChampionOpens | app/lib/commentary.ts:168-183 | given only a finished final won by SLOPS, the fallback opens with SLOPS's champion line |
| Commentary.GenerateCommentary | app/lib/commentary.ts:208-214 | the service's lines are shown when accepted: 3 or 4 lines, each trimmed and longer than 15 code units; otherwise the rendered fallback lines are shown; never more than 4 lines |
| Commentary.NoReplyFallsBack | app/lib/commentary.ts:106-110 | a failed call, empty content, or fewer than 3 usable lines leads to the fallback |
| Commentary.UsableReplyShown | app/lib/commentary.ts:211-212 | an answer with at least 3 usable lines is shown, cut to its first 4 |

## Left out

- The HTTP request to the completion service is not modelled. This covers `fetch`, the 15-second abort, the status check and JSON decoding (app/lib/commentary.ts:93-109). Its outcome is the `reply: Option<string>` parameter of `Commentary.GenerateCommentary`. `None` stands for an exception, a timeout, a non-2xx status or missing content.
- A non-string `content` is not modelled. The reply is either absent or a string.
- The prose of the prompt (app/lib/commentary.ts:53-87) is not modelled, because it is instruction text. `Prompt.BuildPrompt` returns the rows and results the prompt mentions, not the string.
- `buildPrompt` never reads `activeTournaments`. It appears in `Prompt.CommentaryInput` and nothing uses it.
- `apiFetch`, the other `get*` helpers and `revalidate` caching are not modelled, because they are network I/O and framework caching.
- `Clawbr.NormaliseLeaderboard` models `getLeaderboard` on values. It builds the new page rather than assigning `data.debaters` on the fetched object. The object is fresh and unshared, so the only behaviour not captured is that the assignment happens in place.
- The React pages, preview images, the static coach route, the tournament review table and the framework configuration are not modelled. They are markup or fixed data.
- Numbers are modelled as integers: `winRate`, every count and every score. The API sends JavaScript numbers, and neither fractional values nor their template formatting (such as `66.7`) is modelled.
- `JsText.IntToString` gives the decimal form of an integer only. It does not model exponent notation for very large numbers.
- Sorting a copy with a comparator is modelled by the stable `JsArray.SortDesc`. A comparator result of `NaN` cannot arise with integers and is not modelled.
- The live-matches line says "quarterfinal" whatever round its matches are in. The model keeps this template as the code has it.
- A Dafny `string` holds Unicode scalar values, so a lone UTF-16 surrogate, which a JavaScript string and so the service's `content` may contain, cannot be represented.
- `Fallback.Render` is not given its own ensures. It is the template text itself, and the two scenario lemmas check pieces of it.
