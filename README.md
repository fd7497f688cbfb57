# Mindful wellbeing tracker — a Dafny model of its derived state and validators

The application lets a user log daily mood check-ins and journal entries and look after a virtual pet. This project models the parts of it that hold logic:

- **The dashboard** (`dashboard.dfy`). It computes the current check-in streak from the check-ins. The newest check-in must be from today, and the count runs back while each next check-in is from exactly the calendar day before. It also computes the milestone signal, the earned badges, the per-mood counts of the weekly summary and the pie chart, the quote of the day, the truncated history and the "latest mood".
- **The pet** (`pet_model.dfy`, `pet_routes.dfy`). A pet document has a level, xp, hunger, happiness, energy and an evolution stage, with schema defaults. Four routes update a fetched document in place: xp grant, play, feed and sleep. GET creates a default pet when the user has none. A store of one pet per user ties the routes together.
- **Journal and mood routes** (`journal_routes.dfy`, `mood_routes.dfy`). They hold the POST validation (blank content, the 500-character limit, the five allowed moods), the shape of the stored record and the newest-first listing.
- **The journal page** (`journal_page.dfy`). It models the form's state (content, mood, error) with its textarea and submit handlers, the search filter and the first-three truncation.
- Shared helpers: `records.dfy` (user ownership and the newest-first listing both collections use), `lists.dfy` (`filter`, `slice`-based truncation, sorting newest first), `text.dfy` (`trim`, `toLowerCase`, `includes`) and `wrappers.dfy` (Option, Result).

Times are integer milliseconds. A calendar day is `(time + zone) / 86400000`, where `zone` is the local UTC offset. "Now", the day of the month, the offset and the outcome of a network request are parameters. The database is a value: a sequence of records for moods and journals, and a map from user to pet state for pets.

Four behaviours of the code are easy to misread, and the model keeps each one as written:

- **Same-day check-ins are not merged.** The code compares neighbours in the sorted list, so a second check-in on the same day ends the run: today, today, yesterday gives 1. `StreakOfDistinctDays` proves that, with at most one check-in per day and none after now, the streak is the number of consecutive check-in days ending today.
- **Level-ups are single.** A request levels the pet up at most once and resets xp to 0; xp beyond 100 is not carried over. Only play evolves the pet, when the new level is a multiple of 5.
- **Negative grants are accepted.** POST /xp adds any amount, so xp can drop below 0.
- **A missing pet is a 500 for feed and sleep.** Xp and play answer 404 "Pet not found"; feed and sleep dereference the missing document, and their catch answers 500 (`ServerError`).

## Model

| member | source | states |
|---|---|---|
| Dashboard.CalculateStreak | frontend/src/pages/Dashboard.jsx:30-50 | The loop with early exits over the sorted copy returns the streak of the newest-first days, never more than the number of check-ins. The milestone flag is computed from that streak and does not change it. The input list is a value and stays as it was. |
| Dashboard.Run | frontend/src/pages/Dashboard.jsx:35-43 | The leading run is never longer than the list: the missing successor of the last element ends the loop. A non-empty list has a run of at least 1. |
| Dashboard.RunIsLongestDailyPrefix | frontend/src/pages/Dashboard.jsx:35-43 | The run is a prefix in which each day is the day before its predecessor. The day after it, if any, breaks that step, and no longer such prefix exists. |
| Dashboard.StreakIsLongestDailyRunFromToday | frontend/src/pages/Dashboard.jsx:31-43 | An empty history, or one whose newest day is not today, has streak 0. Otherwise the streak is at least 1 and is the length of the longest daily prefix. |
| Dashboard.SameDayCheckinEndsRun | frontend/src/pages/Dashboard.jsx:39-42 | Days today, today, yesterday give streak 1: a same-day duplicate ends the run. |
| Dashboard.GapEndsRun | frontend/src/pages/Dashboard.jsx:39-42 | Days today, yesterday, three days ago give streak 2. |
| Dashboard.DayOfMonotone | frontend/src/pages/Dashboard.jsx:36-41 | A later time never has an earlier calendar day, so a list sorted newest first has non-increasing days. |
| Dashboard.SortedCopyDays | frontend/src/pages/Dashboard.jsx:31 | The sorted copy has a check-in on exactly the days the history has one. |
| Dashboard.SortedCopyDecreasing | frontend/src/pages/Dashboard.jsx:31 | With one check-in per day, the sorted copy's days strictly decrease. |
| Dashboard.SortedCopyNotAfterToday | frontend/src/pages/Dashboard.jsx:31-37 | With no check-in after now, the newest day of the sorted copy is not after today. |
| Dashboard.RunCountsConsecutiveDays | frontend/src/pages/Dashboard.jsx:35-43 | On strictly decreasing days, the run is the number of consecutive calendar days present, counting back from the first. |
| Dashboard.StreakOfDistinctDays | frontend/src/pages/Dashboard.jsx:30-43 | Given at most one check-in per day and none after now, the streak is k exactly when today back to today-(k-1) all have a check-in and today-k has none. |
| Dashboard.MilestonesUpToThirty | frontend/src/pages/Dashboard.jsx:46 | Streak 0 is never a milestone. Between 0 and 30 the milestones are exactly 3, 7, 10, 20 and 30. |
| Dashboard.BadgesAscending | frontend/src/pages/Dashboard.jsx:108-113 | The badge thresholds 3, 7, 14, 30 are listed in ascending order. |
| Dashboard.LeadingReached | frontend/src/pages/Dashboard.jsx:108-114 | The number of leading badges reached is at most the number of badges. |
| Dashboard.EarnedIsPrefix | frontend/src/pages/Dashboard.jsx:114 | On an ascending badge list, the badges whose threshold is at most the streak are a prefix of the list. |
| Dashboard.LeadingReachedMonotone | frontend/src/pages/Dashboard.jsx:114 | A larger streak reaches at least as many leading badges. |
| Dashboard.EarnedPrefixOfEarned | frontend/src/pages/Dashboard.jsx:114 | On an ascending list, the badges of a smaller streak are a prefix of those of a larger streak. |
| Dashboard.EarnedBadgesGrowWithStreak | frontend/src/pages/Dashboard.jsx:108-114 | A badge is earned exactly when its threshold is at most the streak. The earned badges keep list order, form a prefix of the badge list, and grow monotonically with the streak. |
| Dashboard.TallyOver | frontend/src/pages/Dashboard.jsx:94-103 | There is one entry per mood key, in key order, and each holds the number of check-ins with that `moodValue`. |
| Dashboard.TallyOfNone | frontend/src/pages/Dashboard.jsx:100-103 | With no check-ins every count is 0. |
| Dashboard.TallyOfOneMore | frontend/src/pages/Dashboard.jsx:100-103 | With distinct keys, one more check-in raises the total by 1 when its mood is a key, and by 0 otherwise. |
| Dashboard.TallyTotalCountsKnownMoods | frontend/src/pages/Dashboard.jsx:100-103 | With distinct keys, the counts add up to the number of check-ins whose mood is a key. |
| Dashboard.PieDataTotal | frontend/src/pages/Dashboard.jsx:100-103 | The pie data has five counts. Their sum is at most the number of check-ins, and equals it when every check-in has an allowed mood. |
| Dashboard.WeeklyWithinAllTime | frontend/src/pages/Dashboard.jsx:91-103 | The weekly summary lists the same five moods as the pie data, and no weekly count exceeds the all-time count of its mood. |
| Dashboard.QuoteOfTheDay | frontend/src/pages/Dashboard.jsx:88 | The quote of the day is always one of the six quotes; the index is the day of the month modulo 6 and always in range. |
| Dashboard.QuoteCycles | frontend/src/pages/Dashboard.jsx:88 | Days of the month six apart get the same quote. |
| Dashboard.MoodsToShow | frontend/src/pages/Dashboard.jsx:117 | The shown history is a prefix of the check-ins: all of them with "show all", else the first min(5, n). |
| Dashboard.LatestMoodAsWrittenIsOldest | frontend/src/pages/Dashboard.jsx:56 | On the newest-first list GET /moods returns, the element the page calls the latest mood is dated no later than any other check-in. |
| Dashboard.LatestMoodAsWrittenCounterexample | frontend/src/pages/Dashboard.jsx:56 | For two check-ins a day apart, listed newest first, the page picks the older one, while the corrected choice picks the newer one. |
| Dashboard.LatestMood | frontend/src/pages/Dashboard.jsx:56 | The corrected latest mood is absent exactly for an empty list. It is one of the check-ins, and on a newest-first list it is dated no earlier than any other. |
| PetModel.DefaultPet | backend/models/Pet.js:5-12 | A new pet is a cat named Fluffy at level 1 with 0 xp. Hunger, happiness and energy are all 100, the evolution stage is 1, and the pet is at rest. |
| PetModel.Pet.constructor | backend/models/Pet.js:5-12 | A newly constructed document holds the default pet. |
| PetModel.Pet.Load | backend/routes/petRoutes.js:10 | A document loaded from the store holds exactly the stored value. |
| PetRoutes.GrantXp | backend/routes/petRoutes.js:28-32 | The in-place field updates leave the document equal to the xp-grant transition of its previous value. |
| PetRoutes.Play | backend/routes/petRoutes.js:47-56 | The in-place field updates leave the document equal to the play transition of its previous value. |
| PetRoutes.Feed | backend/routes/petRoutes.js:69-70 | The in-place field updates leave the document equal to the feed transition of its previous value. |
| PetRoutes.Sleep | backend/routes/petRoutes.js:82 | The in-place update leaves the document equal to the sleep transition of its previous value. |
| PetRoutes.XpGrantEffect | backend/routes/petRoutes.js:28-32 | A grant adds the amount. If the new xp reaches 100, level rises by exactly 1 and xp becomes 0; otherwise level is unchanged. Stage and stats never change. |
| PetRoutes.PlayEffect | backend/routes/petRoutes.js:47-56 | Play computes happiness min(100, h+10) and energy max(0, e-15), and leaves hunger unchanged. It levels up by exactly one, with xp 0, iff xp+10 reaches 100. The stage rises by 1 iff that level-up lands on a multiple of 5; otherwise it is unchanged. |
| PetRoutes.FeedEffect | backend/routes/petRoutes.js:69-70 | Feed sets hunger to min(100, hunger+20) and happiness to min(100, happiness+5), and changes no other field. |
| PetRoutes.SleepEffect | backend/routes/petRoutes.js:82 | Sleep sets energy to 100 and changes no other field, so a second sleep changes nothing. |
| PetRoutes.ActionKeepsAtRest | backend/routes/petRoutes.js:28-82 | From a pet at rest, any action keeps it at rest, provided xp grants are non-negative. At rest means xp in [0,100), stats in [0,100], and level and stage at least 1. Level and stage each stay the same or rise by exactly 1. |
| PetRoutes.NegativeGrantLeavesRest | backend/routes/petRoutes.js:24-28 | A grant of -1 to the default pet leaves xp below 0: the route does not bound amounts. |
| PetRoutes.ActionsKeepAtRest | backend/routes/petRoutes.js:22-88 | Over any sequence of admissible actions, a pet at rest stays at rest, and its level and stage never decrease. |
| PetRoutes.SingleStepLevelUp | backend/routes/petRoutes.js:28-56 | Play at 95 xp gives level 2 with 0 xp. A 120 xp grant at level 4 with 90 xp gives level 5 with 0 xp and no evolution. |
| PetRoutes.PetStore.Get | backend/routes/petRoutes.js:10-15 | Returns the stored pet unchanged. When the user has none, it stores and returns the default pet, changing nothing else. |
| PetRoutes.PetStore.PostXp | backend/routes/petRoutes.js:24-35 | Without a pet: NotFound with "Pet not found", and nothing is created. Otherwise it stores and returns the xp-grant transition. Pets at rest stay at rest when the amount is non-negative. |
| PetRoutes.PetStore.PostPlay | backend/routes/petRoutes.js:44-59 | Without a pet: NotFound with "Pet not found", and nothing is created. Otherwise it stores and returns the play transition, and pets at rest stay at rest. |
| PetRoutes.PetStore.PostFeed | backend/routes/petRoutes.js:68-74 | Without a pet: ServerError, and nothing is created. Otherwise it stores and returns the feed transition, and pets at rest stay at rest. |
| PetRoutes.PetStore.PostSleep | backend/routes/petRoutes.js:81-86 | Without a pet: ServerError, and nothing is created. Otherwise it stores and returns the sleep transition, and pets at rest stay at rest. |
| Text.TrimEmptyIffBlank | backend/routes/journalRoutes.js:12 | `trim()` yields the empty string exactly when every character is JavaScript whitespace or a line terminator. |
| JournalRoutes.ValidateContent | backend/routes/journalRoutes.js:12-18 | "Empty" is returned iff the content is missing or blank. "Too long" is returned iff it is non-blank and longer than 500. Otherwise the content is accepted exactly as given. |
| JournalRoutes.BlankBeatsLength | backend/routes/journalRoutes.js:12-18 | Whitespace-only content over 500 characters gets the empty-content error, since the blank check runs first. |
| JournalRoutes.LimitIsInclusive | backend/routes/journalRoutes.js:16-18 | Non-blank content of exactly 500 characters is accepted. |
| JournalRoutes.PostEntry | backend/routes/journalRoutes.js:12-22 | A rejected post leaves the store unchanged and answers with the guard's message. An accepted post appends exactly one entry: the user, the time, the untrimmed content, and the mood, which defaults to "📝". |
| JournalRoutes.StoredEntriesFit | backend/models/Journal.js:7-10 | Posting keeps every stored content within the schema's 500-character maximum. |
| Records.ListOwned | backend/routes/journalRoutes.js:30 | `find({ userId }).sort({ date: -1 })`, shared by both collections: only the user's records, each exactly as often as stored, ordered newest first. |
| JournalRoutes.ListEntries | backend/routes/journalRoutes.js:30 | Lists exactly the user's entries, as a permutation of them, ordered newest first. |
| MoodRoutes.PostMood | backend/routes/moodRoutes.js:13-19 | A check-in is accepted iff its value is one of happy, sad, neutral, excited or stressed. An invalid value stores nothing. An accepted one appends a record with the user, the time and the value unchanged. |
| MoodRoutes.ListMoods | backend/routes/moodRoutes.js:29 | Lists exactly the user's check-ins, as a permutation of them, ordered newest first. |
| MoodRoutes.PostedIsListed | backend/routes/moodRoutes.js:18-29 | An accepted check-in appears in its owner's listing. |
| JournalPage.PageGuardMatchesRoute | frontend/src/pages/Journal.jsx:28-32 | The page sends exactly the content the route accepts. It silently ignores the content the route calls empty, and shows the length error where the route would reject for length. |
| JournalPage.JournalForm.constructor | frontend/src/pages/Journal.jsx:6-11 | The form starts with empty content, mood "😊" and no error. |
| JournalPage.JournalForm.SelectMood | frontend/src/pages/Journal.jsx:77 | A mood button sets the mood and nothing else. |
| JournalPage.JournalForm.OnChange | frontend/src/pages/Journal.jsx:93-99 | A value of length at most 500 replaces the content and clears the error. A longer value leaves the content unchanged and sets the limit error. Either way the content stays within 500 characters. |
| JournalPage.JournalForm.Submit | frontend/src/pages/Journal.jsx:26-43 | Blank content: no post, and nothing changes. Content over 500: the length error, and no post. Otherwise it posts the content and mood. On success content becomes "", mood "😊" and error "", and on failure the save error is shown. Under the textarea's limit the length error never arises. |
| JournalPage.FilteredEntries | frontend/src/pages/Journal.jsx:49-53 | An entry is kept iff it matches: its lower-cased content includes the lower-cased search, or its mood includes the search as typed. The result is an order-preserving sublist of the entries that holds every matching entry as many times as the entries do, and no other. |
| Lists.FilterCount | frontend/src/pages/Journal.jsx:49-53 | `filter` keeps every occurrence of a value that passes and no occurrence of one that fails. |
| JournalPage.EmptySearchKeepsAll | frontend/src/pages/Journal.jsx:49-53 | An empty search keeps every entry, in order. |
| JournalPage.EntriesToShow | frontend/src/pages/Journal.jsx:55 | Without "show all" the page shows the first min(3, n) filtered entries, and with it all of them. |

## Findings

| source | as written | input that shows it | evidently intended | confidence | as-written member | corrected member |
|---|---|---|---|---|---|---|
| frontend/src/pages/Dashboard.jsx:56 | "Latest mood" is the last element of the check-in list, but GET /moods lists newest first, so that element is the oldest check-in | a "sad" check-in on a day and a "happy" one a day later: the list is happy, sad and the page labels "sad" (and its date) as the latest | the newest check-in, the first element of the list | high (not executed) | Dashboard.LatestMoodAsWrittenIsOldest | Dashboard.LatestMood |

## Left out

- Database, HTTP and authentication. The routers, `authMiddleware`, mongoose calls and the API client are left out. The stores are values, and a failed request is an input (`postSucceeds`).
- Concurrency. The model does not capture the read-modify-write race between two requests on one pet document.
- Multi-level carry-over. The code has no carry-over and does at most one level-up per request, so the model has neither.
- Errors thrown inside handlers are left out, except the missing-pet dereference in feed and sleep, which is modelled as `ServerError`. The left-out cases include database failures and a body field of the wrong JSON type, such as a non-string `content`.
- PetRoutes.GrantXp: `amount` is an integer. A missing or non-numeric `xp` in the body (NaN, or string concatenation in JavaScript) is not modelled.
- Dashboard.CalculateStreak: calendar days use a fixed UTC offset. Daylight-saving changes, `Date` parsing, invalid dates and the `setDate` month rollover are abstracted to "day number minus one".
- Dashboard.QuoteOfTheDay: the day of the month (`getDate()`) is a parameter rather than read from the clock.
- JournalRoutes.ValidateContent: lengths count Dafny characters (Unicode scalar values). JavaScript counts UTF-16 code units, so text with characters outside the Basic Multilingual Plane is measured differently.
- JournalPage.FilteredEntries: `toLowerCase` folds only the letters A to Z. JavaScript folds all of Unicode. A missing mood (`j.mood?.`) is not modelled, because the page always posts a mood and the schema default covers an absent one; entries stored with a null mood are not modelled.
- Sort order of ties: `find().sort({ date: -1 })` leaves the order of equal dates to the database. The model's sort keeps input order for ties, and the listing lemmas promise only newest-first order and the same elements.
- The dashboard's mood chart, confetti timer, animations and JSX rendering, and the page's refetch after saving (`fetchEntries`), are left out.
- The login and registration pages, the navigation bar, the mood check-in widget, the pet page, the router, token validation based on `jwt-decode` and the clock, the user schema, the server set-up and the build configuration are not part of this model.
