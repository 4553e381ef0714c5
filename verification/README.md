# English-practice calling agent: a Dafny model

This project models the core of an English-practice phone agent.
It covers the call routes and the read-only dashboard routes.

The **call routes** cover:
- `/start`: opens a call session.
- `/process`: sends the learner's message to a language model. It takes a correction out of the model's reply if there is one. It appends the exchange to the session's conversation and records the mistake.
- `/end`: stamps the end time, the duration in whole seconds, a score and a feedback text. It adds the duration to the learner's account.

The **dashboard routes** cover:
- a statistics page: totals, average duration, recent sessions, recurring mistakes and a per-week breakdown of the last thirty days;
- a session detail fetch restricted to the session's owner.

The model is split by module:

- `Common` holds the stored records: conversation entries, mistakes and session documents. It also holds small shared helpers.
- `Correction` holds `extractCorrection`:
  - It tries four case-insensitive phrase patterns, each followed by optional white space and a double-quoted, non-empty capture.
  - A leftmost-match search of the reply is written by hand. A declarative description of the regular expression is proved equivalent to it.
  - The loop over the patterns is a `method` proved equal to the function.
- `Agent` holds `processUserInput`:
  - The persona is chosen from the session type.
  - The request is the persona prompt, the last eight context messages and the user input.
  - A failed model call becomes the fixed apology.
  - The HTTP call is a function parameter, `callModel`.
- `Scoring` holds what `/end` computes:
  - elapsed whole seconds;
  - the score `max(0, 100 - 100 * mistakes / userTurns)`;
  - the feedback text.
- `Sessions` holds the route handlers as classes that change state:
  - `CallSession` is one stored session.
  - `Account` is the user's running totals.
  - `CallService` is the session store, with `Start`, `Process` and `End`.
  - The store keeps an invariant for every session: the conversation alternates user and AI entries, and the mistakes are exactly the corrections recorded on the user entries. So there are never more mistakes than user turns.
- `Ranking` holds a generic `$sort` by integer key, descending, and `$limit`, with a top-k lemma.
- `Dashboard` holds each aggregation pipeline of the dashboard as a function over the stored session documents, plus the detail fetch.

The current time is a parameter (`now`), and so is MongoDB's calendar week of a time (`weekOf`).

## Model

| member | source | states |
|---|---|---|
| Common.UserTurns | routes/calls.js:214 | the number of user entries never exceeds the number of entries |
| Common.UserTurnsAppend | routes/calls.js:214 | the user-entry count of two stretches of a conversation is the sum of their counts |
| Common.UserTurnsSingle | routes/calls.js:214 | a single entry counts one exactly when its speaker is the user |
| Correction.SkipSpaces | routes/calls.js:79-82 | `\s*` consumes only white-space characters and stops at the first other one |
| Correction.NextQuote | routes/calls.js:79-82 | the position found holds the first `"` at or after the start, or is the end of the text |
| Correction.MatchAt | routes/calls.js:79-82 | a capture found at a position is non-empty and holds no double quote |
| Correction.MatchAtSound | routes/calls.js:79-82 | whatever the matcher returns is a match of phrase, white space, quote, capture, quote |
| Correction.MatchAtComplete | routes/calls.js:79-82 | whenever such a match exists at a position, the matcher finds it |
| Correction.MatchAtIff | routes/calls.js:79-82 | the matcher succeeds at a position exactly when the regular expression matches there |
| Correction.Search | routes/calls.js:86 | `String.match` returns the capture of the leftmost position that matches, and reports no match only when no position matches |
| Correction.NoQuoteNoMatch | routes/calls.js:79-82 | a text without a double quote matches none of the patterns |
| Correction.Extract | routes/calls.js:77-103 | the original is always the user input; there is a correction exactly when a capture is present, and then the explanation is the whole reply |
| Correction.FirstCorrectionSpec | routes/calls.js:85-95 | specifies `Correction.FirstCorrection`: the first pattern in list order that matches decides the capture; with no match among them there is none |
| Correction.ExtractSpec | routes/calls.js:77-103 | a correction is found exactly when some pattern matches, and its text is the leftmost capture of the first matching pattern |
| Correction.ExtractCorrection | routes/calls.js:85-102 | the loop over the patterns with its early return computes `Extract` |
| Correction.NoQuoteNoCorrection | routes/calls.js:79-82 | a reply without a double quote never yields a correction |
| Correction.LeadingMatch | routes/calls.js:79 | a reply opening with a phrase, blanks and a quoted quote-free text matches at position 0 and captures exactly that text |
| Correction.ExampleGrammarCorrection | routes/calls.js:77-103 | any reply `I think you meant: "…"` with a non-empty quote-free text yields that text as the correction and the whole reply as its explanation |
| Correction.ExampleNoCorrection | routes/calls.js:97-102 | the example reply `That's great, keep going!` yields no correction, no corrected text and no explanation, with the input as `original` |
| Agent.PersonaFor | routes/calls.js:18-43 | grammar tutor exactly for `grammar_lesson`, pronunciation coach exactly for `pronunciation`, the practice partner for anything else |
| Agent.LastN | routes/calls.js:47 | `slice(-n)` for a positive n (the source calls `slice(-8)`) keeps the last min(n, length) elements in order |
| Agent.BuildMessagesSpec | routes/calls.js:45-49 | specifies `Agent.BuildMessages`: the request is the persona prompt, the last min(8, n) context messages in order, then the user input; at most ten messages |
| Agent.RoleOf | routes/calls.js:148 | a stored entry is sent with the user role exactly when its speaker is the user |
| Agent.ContextOf | routes/calls.js:147-150 | the context has one message per stored entry, in order, with that entry's text and the role its speaker maps to |
| Agent.ProcessUserInput | routes/calls.js:51-74 | the reply is flagged as an error exactly when the model call fails, and is then the apology; otherwise it is the model's text |
| Agent.FallbackHasNoCorrection | routes/calls.js:70-73 | the apology never yields a correction, so a failed call records no mistake |
| Agent.RequestForConversation | routes/calls.js:147-152 | the request for a stored conversation is the persona prompt, the messages of its last min(8, n) entries oldest first, then the new input |
| Agent.LastOfContext | routes/calls.js:147-150 | mapping entries to messages commutes with keeping the last k of them |
| Scoring.ElapsedSeconds | routes/calls.js:211 | the duration is the floor of the elapsed milliseconds divided by 1000 |
| Scoring.ScoreWithoutUserTurns | routes/calls.js:215-216 | with no user entry the rate is 0 and the score is 100 |
| Scoring.ScoreIsCleanPercentage | routes/calls.js:214-216 | specifies `Scoring.Score` under the session invariant: the score is the percentage of user entries without a mistake, within [0, 100] |
| Scoring.RateFacts | routes/calls.js:215-216 | a rate of m out of u lies in [0, 1], and 100 minus 100 times it, scaled by u, is 100 times (u - m) |
| Scoring.ScoreAtMostHundred | routes/calls.js:216 | specifies `Scoring.Score` for any counts: `max(0, 100 - 100 * rate)` lies in [0, 100] |
| Scoring.ScoreExample | routes/calls.js:214-216 | four user entries and one mistake score 75 |
| Scoring.NatToString | routes/calls.js:221 | the count is printed as a non-empty run of decimal digits without a leading zero |
| Scoring.ParseNatToString | routes/calls.js:221 | reading the printed count back gives the count |
| Scoring.FeedbackSpec | routes/calls.js:219-224 | specifies `Scoring.Feedback`: with mistakes, the fixed head, a digit run without leading zero that reads back as the count, and the first min(3, n) pairs; without mistakes, the fixed congratulation |
| Scoring.FeedbackListsFirstThree | routes/calls.js:220-221 | mistakes after the third change the feedback only through the count |
| Scoring.JoinPairsCongruent | routes/calls.js:221 | the joined list depends only on the text of each pair |
| Sessions.KeysOf | routes/calls.js:175-180 | one key per mistake |
| Sessions.KeysOfAt | routes/calls.js:175-180 | the keys are the mistakes' keys, position by position |
| Sessions.RecordedAtMostUserTurns | routes/calls.js:156-165 | corrections are recorded only on user entries, so there are at most as many as user entries |
| Sessions.MistakesAtMostUserTurns | routes/calls.js:174-181 | in a consistent session, there are never more mistakes than user entries |
| Sessions.HalfAreUserTurns | routes/calls.js:156-171 | in an alternating conversation, exactly half the entries are the user's |
| Sessions.KeysOfAppend | routes/calls.js:175 | the keys of any appended mistakes are the old keys followed by theirs, in order |
| Sessions.ExchangeKeepsConsistent | routes/calls.js:156-181 | appending a user entry, the AI entry and the mistake, if any, keeps the session consistent |
| Sessions.CallSession.Doc | routes/dashboard.js:99 | the stored document carries the session's identity, conversation and mistakes |
| Sessions.CallSession.constructor | routes/calls.js:113-117 | a new session is empty, unended and consistent, with the given owner and types |
| Sessions.CallSession.AddExchange | routes/calls.js:156-181 | the user entry, then the AI entry, are appended, and the mistake when there is a correction; the session stays consistent and nothing else changes |
| Sessions.CallSession.Finish | routes/calls.js:210-224 | the end time is now, the duration is the elapsed whole seconds, and the score and feedback are those of the unchanged history |
| Sessions.CallService.Start | routes/calls.js:109-135 | a fresh session id; the types default to `voice` and `free_conversation`; other sessions are unchanged; the caller's call count goes up by one |
| Sessions.CallService.Process | routes/calls.js:138-198 | "Session not found" exactly when the caller does not own the session, leaving it unchanged; otherwise the user entry, the AI entry and any mistake are appended, and the reply echoes the correction |
| Sessions.CallService.End | routes/calls.js:201-243 | "Session not found" exactly when the caller does not own the session; otherwise the end time, the duration, the score and the feedback are set, and the duration is added to the caller's total |
| Sessions.CallService.MistakesBounded | routes/calls.js:214-216 | every stored session has at most as many mistakes as user entries, so its score lies in [0, 100]; the document it is persisted as is filed under its id and keeps that bound |
| Ranking.InsertDesc | routes/dashboard.js:35 | inserting adds exactly the new entry |
| Ranking.InsertDescSorted | routes/dashboard.js:35 | inserting into a descending list keeps it descending |
| Ranking.SortDesc | routes/dashboard.js:12 | the result is a descending permutation of the input |
| Ranking.Take | routes/dashboard.js:13 | `limit(n)` keeps the first min(n, length) entries |
| Ranking.PrefixDominates | routes/dashboard.js:35-36 | in a descending list, an entry past the cut has a key no larger than any entry before it |
| Ranking.TopEntries | routes/dashboard.js:35-36 | sorting then limiting keeps min(n, length) entries of the input, in descending order, and no entry left out outranks one kept |
| Ranking.OccursOnce | routes/dashboard.js:26-34 | an entry whose key is unique occurs exactly once |
| Ranking.OccursTwice | routes/dashboard.js:26-34 | an entry found at two positions occurs at least twice |
| Ranking.SubKeepsDistinct | routes/dashboard.js:26-36 | keeping part of a list with unique keys keeps the keys unique |
| Ranking.UpdateKeepsDistinct | routes/dashboard.js:26-34 | replacing an entry by one with the same key keeps the keys unique |
| Ranking.AppendKeepsDistinct | routes/dashboard.js:26-34 | appending an entry with a new key keeps the keys unique |
| Dashboard.OwnedBy | routes/dashboard.js:11 | exactly the caller's documents are members of the result |
| Dashboard.OwnedByCounts | routes/dashboard.js:11 | each of the caller's documents is selected as often as it is stored, any other document never |
| Dashboard.OwnedByAppend | routes/dashboard.js:11 | the filter keeps stored order: filtering two stretches in turn is filtering them together |
| Dashboard.TotalSessions | routes/dashboard.js:15 | at most the number of stored documents, and 0 exactly when none is the caller's |
| Dashboard.TotalSessionsCounts | routes/dashboard.js:15 | the count is additive over documents, one for each of the caller's and none for anyone else's: the number of the caller's documents |
| Dashboard.UnwindLength | routes/dashboard.js:19-20 | unwinding the mistakes yields as many entries as the sum of the mistake counts |
| Dashboard.TotalMistakes | routes/dashboard.js:17-21 | total mistakes is the sum of the caller's mistake counts, and 0 when the caller has no session |
| Dashboard.FindPair | routes/dashboard.js:26-30 | the position found is the first group with the pair, or the end |
| Dashboard.OccurrencesWitness | routes/dashboard.js:31 | a positive count has a mistake carrying the pair |
| Dashboard.OccurrencesPositive | routes/dashboard.js:31 | a mistake carrying the pair makes its count positive |
| Dashboard.LatestOtherPair | routes/dashboard.js:32 | a mistake with another pair leaves a pair's latest time unchanged |
| Dashboard.LatestSamePair | routes/dashboard.js:32 | a mistake with the pair raises its latest time to the maximum of the two |
| Dashboard.LatestNewPair | routes/dashboard.js:32 | the first mistake with a pair sets its latest time |
| Dashboard.NoGroupNoOccurrence | routes/dashboard.js:26-31 | a pair with no group among groups that cover the mistakes does not occur |
| Dashboard.BumpKeepsFits | routes/dashboard.js:31-32 | counting a mistake in its pair's group keeps every group's count and latest time exact |
| Dashboard.BumpKeepsCover | routes/dashboard.js:26-30 | counting a mistake in its pair's group keeps every mistake covered |
| Dashboard.OpenedKeepsFits | routes/dashboard.js:31-32 | opening a group for a new pair keeps every group's count and latest time exact |
| Dashboard.OpenedKeepsCover | routes/dashboard.js:26-30 | opening a group for a new pair keeps every mistake covered |
| Dashboard.AddMistakeGroups | routes/dashboard.js:26-34 | one more mistake keeps the grouping exact |
| Dashboard.GroupPairsCorrect | routes/dashboard.js:25-34 | one group per pair that occurs, with its exact count and its latest time, and every mistake falls in a group |
| Dashboard.CommonMistakesSpec | routes/dashboard.js:23-37 | specifies `Dashboard.CommonMistakes`: at most ten groups of the caller's mistakes, one per pair, exact counts, in non-increasing count order; none left out is more frequent than one kept |
| Dashboard.CommonMistakesExample | routes/dashboard.js:23-37 | the same mistake in two sessions gives one entry of frequency 2 |
| Dashboard.InWindow | routes/dashboard.js:41-44 | exactly the caller's sessions started at most thirty days before now are members of the result |
| Dashboard.InWindowCounts | routes/dashboard.js:41-44 | each matching document is selected as often as it is stored, any other document never |
| Dashboard.FindWeek | routes/dashboard.js:48-51 | the position found is the first bucket of the week, or the end |
| Dashboard.CountInWeekWitness | routes/dashboard.js:52 | a week with a positive count has a session in it |
| Dashboard.NoBucketEmptyWeek | routes/dashboard.js:48-54 | a week with no bucket among buckets that cover the sessions has no session, no duration and no mistakes |
| Dashboard.CountedKeepsFits | routes/dashboard.js:52-54 | counting a session in its week's bucket keeps every bucket's figures exact |
| Dashboard.CountedKeepsCover | routes/dashboard.js:48-51 | counting a session in its week's bucket keeps every session covered |
| Dashboard.OpenedWeekKeepsFits | routes/dashboard.js:52-54 | opening a bucket for a new week keeps every bucket's figures exact |
| Dashboard.OpenedWeekKeepsCover | routes/dashboard.js:48-51 | opening a bucket for a new week keeps every session covered |
| Dashboard.AddSessionBuckets | routes/dashboard.js:46-56 | one more session keeps the bucketing exact |
| Dashboard.EmptyWeek | routes/dashboard.js:53-54 | a week without sessions has no duration and no mistakes |
| Dashboard.GroupWeeksCorrect | routes/dashboard.js:46-56 | one bucket per week that occurs, with that week's count, duration total and mistake total, and every session falls in a bucket |
| Dashboard.GroupWeeksCount | routes/dashboard.js:52 | the bucket counts add up to the number of sessions |
| Dashboard.SessionsInUpdate | routes/dashboard.js:52 | replacing one bucket changes the count total by the difference |
| Dashboard.SessionsInAppend | routes/dashboard.js:52 | appending a bucket adds its count |
| Dashboard.RankOrder | routes/dashboard.js:57 | of two distinct weeks, the one ranked first comes earlier by year, then by week |
| Dashboard.SessionsInInsert | routes/dashboard.js:57 | sorting by inserting keeps the count total |
| Dashboard.SessionsInSort | routes/dashboard.js:57 | sorting keeps the count total |
| Dashboard.WeeksFigures | routes/dashboard.js:46-57 | each ordered bucket has its week's count, duration total and mistake total, and at least one session |
| Dashboard.WeeksCover | routes/dashboard.js:46-57 | every session's week has a bucket |
| Dashboard.WeeksAscending | routes/dashboard.js:57 | the buckets are in strictly ascending (year, week) order |
| Dashboard.WeeksTotal | routes/dashboard.js:52 | the bucket counts add up to the number of sessions |
| Dashboard.WeeklyProgressSpec | routes/dashboard.js:39-58 | specifies `Dashboard.WeeklyProgress`: one bucket per week with a session in the window, each with that week's figures, strictly ascending by (year, week); the counts add up to the sessions in the window |
| Dashboard.GroupSessionsPositive | routes/dashboard.js:52 | every bucket holds at least one session |
| Dashboard.LastBucketIsLatest | routes/dashboard.js:57 | in ascending order, no bucket's week comes after the last one's |
| Dashboard.CurrentWeekOfSessions | routes/dashboard.js:72 | over any matched sessions, the last bucket's count is the count of their latest week, or 0 when there are none |
| Dashboard.CurrentWeekIsLatestWeek | routes/dashboard.js:72 | specifies `Dashboard.CurrentWeekSessions`: the current-week figure is the count of the latest week with a session in the window, or 0 when there is none |
| Dashboard.AverageDuration | routes/dashboard.js:71 | 0 without calls; otherwise the integer nearest the mean duration, with halves rounded up |
| Dashboard.SummarizeAll | routes/dashboard.js:74-81 | one summary per session, in order, each carrying its mistake count |
| Dashboard.RecentDocsSpec | routes/dashboard.js:11-13 | at most ten of the caller's sessions, each listed no more often than it is stored, newest first; none left out started later than one listed |
| Dashboard.RecentSessionsSpec | routes/dashboard.js:74-81 | specifies `Dashboard.RecentSessions`: the recent list summarises those sessions in order, newest first, with their mistake counts |
| Dashboard.FindById | routes/dashboard.js:99 | the document found has the id; when none is found, no document has it |
| Dashboard.SessionDetail | routes/dashboard.js:97-118 | "Session not found" for a missing or foreign session; otherwise the owner's full session, conversation and mistakes unchanged |
| Dashboard.SessionDetailIff | routes/dashboard.js:99-103 | with unique ids, the detail is returned exactly when the caller owns a session with that id |
| Dashboard.DashboardOf | routes/dashboard.js:60-89 | the current-week count never exceeds the total sessions, and both lists hold at most ten entries |
| Dashboard.LastAtMostSum | routes/dashboard.js:72 | the last bucket's count is at most the sum of all counts |

## Left out

- Authentication (`routes/auth.js`, the `authenticateToken` middleware) and the server set-up (`server.js`) are not part of this model. The caller's user id is an input.
- `models/` (the Mongoose schemas) is not part of this model. These schema defaults are assumed:
  - a session's `startTime` and a mistake's `timestamp` are the current time;
  - conversation and mistakes start empty;
  - an AI entry has no correction.
- The HTTP request to the language model is the function parameter `callModel`. The model name, token limit, temperature and API key are left out. So are the `usage` metadata and the wording of the three system prompts, which are modelled only as which persona is chosen. The `console.error` logging of a failed model call is left out as well; the model keeps only the apology that the failure turns into.
- Persistence is left out: the store is an in-memory map. The separate `save` and `findByIdAndUpdate` writes are not atomic in the source, and the model treats each handler as one step.
- The `500` error branches (database or network exceptions inside `try`) and request-body validation are left out. `Process` accepts any message text.
- Clocks: `Date.now()` and `new Date()` are the parameter `now`. `$week`/`$year` of a time is the parameter `weekOf`: MongoDB's calendar (Sunday-based weeks 0..53, UTC) is not modelled.
- Sessions.CallService.End: the source does not reject a repeated `/end`, so neither does the model. It recomputes everything and adds the new duration again. `/process` after `/end` is allowed as well. The code is followed here rather than any stated intent.
- Scoring.Score: uses exact rational arithmetic, not IEEE doubles, so rounding of the score is not modelled.
- Dashboard.AverageDuration: rounds the exact mean. `Math.round` of a double quotient can differ from it when the quotient is not exactly representable.
- Correction.MatchAt: works on Unicode scalar values. JavaScript works on UTF-16 code units, which differ only for characters outside the Basic Multilingual Plane. Case folding is the ASCII fold, which is exact for the patterns' ASCII letters.
- Scoring.Arrow: the separator in the feedback is the three characters the source file holds (`â†’`, the UTF-8 bytes of an arrow read as Windows-1252), not an arrow.
- Ranking.SortDesc: the order among entries with equal keys is unspecified in MongoDB; the model fixes one order, and the lemmas state only what holds for any order.
- Dashboard.TotalMistakes: the `$match` on `user._id` and the `find` on the string user id are taken to select the same documents.
- Dashboard.DashboardOf: the user record is an input; the case of a missing user, which makes the source fail with a `500`, is left out.
- Agent.LastN: requires a positive n. JavaScript's `slice(-0)` is `slice(0)` and returns the whole array, but the source only ever calls `slice(-8)`.
- Sessions.Account.constructor and Sessions.CallService.constructor: they model no line of the routes. They stand for the User schema's zero counters and for an empty session collection, so the Model table has no row for them.
