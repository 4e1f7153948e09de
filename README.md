# progex1 challenge, friends and study-plan core in Dafny

progex1 is a Flask site where people compare their progress on the LeetCode judge.
This project models four parts of it:

- **Challenges.** Users create challenges (a list of problems with an expiry date) and invite friends. Invitees accept or decline. Only the creator may edit or delete a challenge. The challenges page builds a submission cache once per distinct user. It annotates every challenge the viewer takes part in with time left, the viewer's progress and the participant breakdown. It then files the challenge into exactly one of four buckets: invitations, pending, ongoing, completed/expired.
- **The user collection.** One document per username, holding the judge handle and a friend list. Friends are added with array-union and removed with array-remove.
- **The study plan view.** Questions are grouped by topic, and the plan has a cursor on the current question.
- **The friends page and the leaderboard.** A friend is added only if the judge knows them. Friends' stats are listed. The viewer and their friends are ranked by problems solved.

## Modules

- `wrappers.dfy`: `Option` and `Result`.
- `judge.dfy` (`Judge`): what the judge returns, namely submissions and profile stats. It defines the accepted-slug set. The two fetches are function parameters.
- `challenge_data.dfy` (`ChallengeData`): the challenge record and its participant map. The map is an ordered list of entries, with keys in insertion order.
- `progress.dfy` (`Progress`): `calculate_progress`.
- `classify.dfy` (`Classify`): `challenges_page`. Each challenge document is a `ChallengeDoc` object whose annotation fields the page loop writes in place.
- `lifecycle.dfy` (`Lifecycle`): these routes over a `ChallengeStore` that maps ids to records:
  - `create_challenge`, which includes slug parsing and the participant map;
  - `respond_to_challenge`;
  - `delete_challenge`;
  - `edit_challenge`.
- `user_store.dfy` (`UserStore`): the user functions of `firebase_service.py`. They operate on a `Users` object holding the document map.
- `study_plan.dfy` (`StudyPlan`): `view_study_plan`.
- `friends.dfy` (`Friends`): `friends_page`, the friend-removal route and `leaderboard_page`.

Modelling conventions:

- A Python value that is missing, `None` or the empty string is the empty string (`NO_STATUS`) or `None`, depending on how the code tests it.
- A document field stored as null is treated like an absent field. In the source, `user_data.get('friends', [])` returns `None` for a null `friends` field, so `get_friends` would hand `None` to its caller. Likewise `question.get('topic', 'General')` would group a null topic under the key `None`. The model reads both as absent: an empty friend list and the topic "General".
- An outcome tag stands for `flash` plus `redirect`.
- Time is an integer number of seconds, and `now` is a parameter.

## Model

| member | source | states |
|---|---|---|
| Judge.AcceptedSlugs | app/routes/challenges.py:24 | a slug is in the set exactly when some submission with that slug was accepted |
| Judge.AcceptedSlugsSize | app/routes/challenges.py:24 | there are never more accepted slugs than submissions |
| Judge.AcceptedSlugsIgnoresOrder | app/routes/challenges.py:24 | the set of accepted slugs depends only on which submissions are present, not on their order or repetition |
| Judge.AcceptedSlugsAppend | app/routes/study_plan.py:32 | the accepted slugs of two submission lists together are the union of the two sets |
| ChallengeData.StatusOf | app/routes/challenges.py:57 | a name with no entry reads as no status; a name with an entry reads the status of its first entry; a non-empty status is the status of an entry with that name |
| ChallengeData.SetStatus | app/routes/challenges.py:155-157 | assigning a key adds an entry only for a new name, the key set gains exactly that name, and the first key keeps its place |
| ChallengeData.SetStatusKeepsPlaces | app/routes/challenges.py:155-157 | dictionary order under assignment: every existing entry keeps its place and its name, and an entry for another name is untouched |
| ChallengeData.SetStatusFirstEntry | app/routes/challenges.py:155-157 | the first entry for the name takes the new status |
| ChallengeData.SetStatusAppends | app/routes/challenges.py:155-157 | a name without an entry is appended as the last entry |
| ChallengeData.SetStatusKeepsUnique | app/routes/challenges.py:155-157 | the participant map keeps one entry per name |
| ChallengeData.SetStatusReads | app/routes/challenges.py:157 | after the assignment the name reads the new status and every other name reads what it read before |
| Progress.ProgressOf | app/routes/challenges.py:18-30 | the value `calculate_progress` returns is the number of positions holding a solved problem, at most the number of problems |
| Progress.CalculateProgress | app/routes/challenges.py:18-30 | the count is the number of problems whose slug has an Accepted submission (None treated as no submissions, 0 for no problems) and never exceeds the number of problems |
| Progress.SolvedCountIsPositionCount | app/routes/challenges.py:25-29 | the counting loop's result is the number of positions whose problem is solved |
| Progress.SolvedCountBounded | app/routes/challenges.py:25-29 | the solved count never exceeds the number of problems |
| Progress.SolvedCountFull | app/routes/challenges.py:25-29 | the solved count equals the number of problems exactly when every problem is solved |
| Progress.SolvedCountAppend | app/routes/challenges.py:25-29 | the count over two problem lists together is the sum of their counts |
| Progress.SolvedCountSwap | app/routes/challenges.py:25-29 | the count does not depend on the order of the two parts of the problem list |
| Classify.TimeLeftOf | app/routes/challenges.py:63-72 | no text without an expiry; "Expired" exactly when the expiry is present and earlier than now; otherwise whole days and hours with hours < 24 and days·86400 + hours·3600 ≤ seconds left < days·86400 + (hours+1)·3600 |
| Classify.NatToString | app/routes/challenges.py:72 | the rendering of a count is a non-empty string of decimal digits, without a leading zero, whose decimal value is the count |
| Classify.Label | app/routes/challenges.py:67-72 | the time-left text is "Expired" for an expired challenge and never for a running one |
| Classify.LabelReadsBack | app/routes/challenges.py:72 | a running challenge's text is a digit run denoting its days, "d ", a digit run denoting its hours, and "h left", each run non-empty and without a leading zero, as `str(int(n))` prints it |
| Classify.BreakdownCounts | app/routes/challenges.py:90-99 | every accepted entry lands in exactly one of completed and in-progress: the two sizes add up to the accepted names, one per accepted entry |
| Classify.BreakdownByStatus | app/routes/challenges.py:93-101 | a name is among the accepted names exactly when it has an accepted entry, and among the invited exactly when it has an invited entry; other statuses go nowhere |
| Classify.BreakdownByProgress | app/routes/challenges.py:95-99 | a name is completed exactly when it has an accepted entry and solved every problem, in progress exactly when accepted and not |
| Classify.BreakdownNoProblems | app/routes/challenges.py:95-97 | with no problems nobody is in progress and every accepted participant is completed |
| Classify.FullyCompletedMeaning | app/routes/challenges.py:110 | fully completed exactly when someone accepted, every accepted participant solved everything and nobody is still invited |
| Classify.BucketOf | app/routes/challenges.py:114-121 | the first-match chain: invitations iff invited and unexpired; pending iff accepted, unexpired, fewer than two accepted; ongoing iff accepted, unexpired, enough players, not fully completed; completed/expired otherwise |
| Classify.Percent | app/routes/challenges.py:82 | 0 without problems, between 0 and 100 when solved ≤ total, and 100 exactly when everything is solved |
| Classify.ViewerCompletedMeaning | app/routes/challenges.py:74-84 | the viewer's progress is at most the total, the percentage lies in 0..100, and `is_completed_by_user` holds exactly when there are problems and the viewer solved every one |
| Classify.AnnotatedExpiry | app/routes/challenges.py:63-72 | for a challenge with an expiry, its time left reads "Expired" exactly when it is expired |
| Classify.LoneAcceptedIsPending | app/routes/challenges.py:109-117 | an unexpired challenge the viewer accepted with at most one accepted entry is pending, whatever the progress |
| Classify.AllFinishedIsCompleted | app/routes/challenges.py:109-121 | with two accepted participants who solved everything and no invitee left, the challenge is fully completed and filed as completed/expired |
| Classify.PickedCount | app/routes/challenges.py:113-121 | the four buckets together hold exactly one entry per challenge that is not skipped |
| Classify.PickedMembership | app/routes/challenges.py:56-121 | a challenge is in a bucket exactly when it is listed, the viewer has a status in it and that bucket is its bucket |
| Classify.ExpiredOnlyInCompleted | app/routes/challenges.py:114-121 | a filed challenge was not skipped, and an expired one is only ever in completed/expired |
| Classify.SplitParticipants | app/routes/challenges.py:87-101 | the participant loop produces exactly the breakdown specified entry by entry (and therefore the properties above) |
| Classify.SetTimeLeft | app/routes/challenges.py:62-72 | the expiry flag is "expiry present and passed" and `time_left` is set from it, left as it was without an expiry |
| Classify.SetProgress | app/routes/challenges.py:74-84 | progress is the viewer's solved count from the cache, the total is the number of problems, and the percentage and completion flag follow them |
| Classify.SetParticipants | app/routes/challenges.py:86-111 | the three lists, `is_fully_completed` and `has_enough_players` match the participant breakdown |
| Classify.AnnotateChallenge | app/routes/challenges.py:57-121 | a challenge without a status for the viewer is left untouched and filed nowhere; any other gets its full annotation and its bucket |
| Classify.FileInto | app/routes/challenges.py:113-121 | the challenge is appended to the list of its bucket and to no other |
| Classify.ClassifyChallenges | app/routes/challenges.py:53-121 | each bucket lists, in input order, exactly the challenges filed into it; skipped challenges are untouched and all others annotated |
| Classify.UniqueParticipants | app/routes/challenges.py:42-45 | the set is the viewer plus every participant key of every challenge |
| Classify.BuildCache | app/routes/challenges.py:42-50 | the cache has one entry per distinct user (the viewer and every participant) holding that user's 50 most recent submissions; the log of fetches names each of those users exactly once, however many challenges they share |
| Classify.ChallengesPage | app/routes/challenges.py:33-127 | no login redirects and changes nothing; otherwise the buckets are those of the cache built from the viewer and all participants |
| Lifecycle.Strip | app/routes/challenges.py:147 | the result has no whitespace at either end, uses only input characters, is empty exactly when the input is all whitespace, and leaves an already-stripped string alone |
| Lifecycle.StripIsSlice | app/routes/challenges.py:147 | the stripped text is a slice of the input with only whitespace cut off before and after it; with Strip's whitespace-free ends this fixes the slice uniquely |
| Lifecycle.Split | app/routes/challenges.py:147 | splitting yields at least one part and no part contains the separator |
| Lifecycle.SplitJoin | app/routes/challenges.py:147 | joining the parts with the separator gives the input back |
| Lifecycle.NonBlank | app/routes/challenges.py:147 | no more tokens than parts, each non-empty and starting with a non-space |
| Lifecycle.NonBlankAppend | app/routes/challenges.py:147 | the tokens of concatenated parts are the tokens of each, in order, so tokens keep the order and multiplicity of their parts |
| Lifecycle.NonBlankMembership | app/routes/challenges.py:147 | a token is kept exactly when it is the non-empty stripped form of some part |
| Lifecycle.NonBlankShape | app/routes/challenges.py:147 | every kept token is non-empty, has no separator and no whitespace at either end |
| Lifecycle.SlugChar | app/routes/challenges.py:150 | a space becomes '-', an upper-case letter becomes the same lower-case letter, every other character is kept; the result is never a space or upper-case |
| Lifecycle.Sanitize | app/routes/challenges.py:150 | the slug has the token's length; at each position a space becomes '-', an upper-case letter its lower-case form, and every other character stays |
| Lifecycle.SanitizeIdempotent | app/routes/challenges.py:150 | sanitizing a slug again changes nothing |
| Lifecycle.DashesToSpaces | app/routes/challenges.py:151 | the display text has the slug's length and no dashes |
| Lifecycle.BuildProblems | app/routes/challenges.py:148-152 | one problem per token, in order, with the sanitized slug and the title derived from it |
| Lifecycle.ProblemsFrom | app/routes/challenges.py:147-152 | one problem per non-blank comma token, problem i carrying the sanitized token i as its slug (input order), each slug non-empty and free of commas, spaces and upper-case letters |
| Lifecycle.InitialParticipants | app/routes/challenges.py:155-157 | the creator's entry comes first and there is at most one entry per invitee besides it |
| Lifecycle.InitialParticipantsShape | app/routes/challenges.py:155-157 | the creator's entry comes first, the keys are the creator and the invitees and nobody else, each once |
| Lifecycle.InitialParticipantsStatus | app/routes/challenges.py:155-157 | every invitee reads "invited" (the creator too, when invited), the creator otherwise "accepted", anyone else nothing |
| Lifecycle.BuildParticipants | app/routes/challenges.py:155-157 | the loop builds exactly that participant map |
| Lifecycle.ChallengeStore.GetChallengeById | app/routes/challenges.py:193 | a record exactly for a stored id, and it is the stored one |
| Lifecycle.ChallengeStore.Create | app/routes/challenges.py:164 | a successful write stores the record under a fresh id; a failed one changes nothing |
| Lifecycle.ChallengeStore.UpdateParticipantStatus | app/routes/challenges.py:183 | only the named entry of the given challenge changes; a missing challenge changes nothing |
| Lifecycle.ChallengeStore.Delete | app/routes/challenges.py:195 | the id is removed and every other record kept |
| Lifecycle.ChallengeStore.UpdateDetails | app/routes/challenges.py:216 | only title and description of that challenge change |
| Lifecycle.CreateChallenge | app/routes/challenges.py:131-171 | no login or a blank field creates nothing; a challenge is created exactly when all fields are present, the date parses and the write succeeds, with the parsed problems, end-of-day expiry, status "active" and the participant map |
| Lifecycle.RespondToChallenge | app/routes/challenges.py:178-185 | only "accepted" or "declined" is written, only to the caller's own entry; any other response changes nothing |
| Lifecycle.DeleteChallenge | app/routes/challenges.py:189-199 | a challenge is deleted exactly when it exists and the caller is its stored creator; anyone else logged in is refused with a permission error; otherwise nothing changes |
| Lifecycle.EditChallenge | app/routes/challenges.py:203-219 | a non-creator is refused; the creator gets the form holding the stored challenge on GET and updates title and description on POST; nothing else changes |
| UserStore.ArrayUnion | app/services/firebase_service.py:51-55 | an absent field becomes exactly `[x]`; otherwise the friend is appended only when absent, so an existing entry is not duplicated |
| UserStore.ArrayRemove | app/services/firebase_service.py:65-69 | no occurrence of the friend remains, every other name keeps its number of occurrences, and an absent field becomes the empty list |
| UserStore.RemoveAll | app/services/firebase_service.py:65-69 | no occurrence of the friend remains |
| UserStore.RemoveAllCounts | app/services/firebase_service.py:65-69 | every other entry remains exactly as often as before |
| UserStore.RemoveAllKeepsNoDuplicates | app/services/firebase_service.py:65-69 | a duplicate-free list stays duplicate-free |
| UserStore.UnionKeepsNoDuplicates | app/services/firebase_service.py:51-55 | a duplicate-free list stays duplicate-free |
| UserStore.RemoveAfterUnion | app/services/firebase_service.py:51-69 | adding and then removing a friend leaves the list as removing alone would |
| UserStore.RemoveAllAppend | app/services/firebase_service.py:65-69 | removal acts on each part of a list independently |
| UserStore.Users.GetUserData | app/services/firebase_service.py:24-28 | None for an empty name or a missing document, otherwise the stored record |
| UserStore.Users.GetFriends | app/services/firebase_service.py:76-79 | the stored list, or empty when the user or the field is missing |
| UserStore.Users.AddOrUpdateUser | app/services/firebase_service.py:35-41 | false and no change for an empty name; otherwise the handle is set and every other field (friends included) is kept, or the document is created |
| UserStore.Users.AddFriend | app/services/firebase_service.py:48-56 | false and no change for an empty name or oneself; otherwise only the main user's list changes, by union; a missing document is an error and changes nothing |
| UserStore.Users.RemoveFriend | app/services/firebase_service.py:62-70 | false and no change for an empty name (but not for oneself); otherwise only the main user's list changes, by removal |
| StudyPlan.Topics | app/routes/study_plan.py:34-36 | there are no more topics than questions, and the first question's topic comes first |
| StudyPlan.Group | app/routes/study_plan.py:34-36 | a group holds only questions of its topic and no more than the plan |
| StudyPlan.TopicsFirstAppearance | app/routes/study_plan.py:34-36 | the group keys are in order of first appearance: a question of each earlier key occurs before every question of a later key |
| StudyPlan.TopicsShape | app/routes/study_plan.py:34-36 | the group keys are exactly the topics of the questions ("General" when absent), each once |
| StudyPlan.GroupAppend | app/routes/study_plan.py:34-36 | the group of a concatenated plan is the two groups in order, so each group keeps plan order |
| StudyPlan.GroupMembership | app/routes/study_plan.py:34-36 | a question is in a topic's group exactly when it is in the plan with that topic |
| StudyPlan.GroupsPartition | app/routes/study_plan.py:34-36 | the group sizes add up to the number of questions, so every question is in exactly one group |
| StudyPlan.GroupEmpty | app/routes/study_plan.py:34-36 | a topic no question has gets no entries |
| StudyPlan.GroupByTopic | app/routes/study_plan.py:34-36 | the loop's groups are keyed by exactly the topics, each holding that topic's questions in plan order |
| StudyPlan.ViewStudyPlan | app/routes/study_plan.py:26-59 | no page without questions; the solved set is the accepted slugs; the cursor defaults to 0; the completion view exactly when the cursor is past the last question; otherwise the question under the cursor, solved exactly when its slug is accepted |
| Friends.Collect | app/routes/friends.py:51-56 | at most one record per name, and exactly one per name when every lookup succeeds |
| Friends.CollectAppend | app/routes/friends.py:51-56 | collecting keeps the order of the friend list |
| Friends.CollectMembership | app/routes/friends.py:51-56 | a record is collected exactly when it is the successful lookup of some listed friend |
| Friends.AppendFetched | app/routes/friends.py:97-101 | the loop appends the stats of every name whose lookup succeeds, in order, skipping the rest |
| Friends.AddFriendRequest | app/routes/friends.py:24-44 | oneself is refused and an empty name ignored, both without change; a name is added exactly when the judge knows it and the viewer's document exists; an unknown name is reported |
| Friends.RemoveFriendRequest | app/routes/friends.py:62-74 | any name, oneself included, is removed from the viewer's list; without a login nothing changes |
| Friends.FriendsPage | app/routes/friends.py:24-59 | no page without a login; otherwise the page lists the stats of exactly the friends whose lookup succeeded, in friend-list order |
| Friends.SortByTotalDesc | app/routes/friends.py:104 | sorting keeps the number of entries |
| Friends.SortedNonIncreasing | app/routes/friends.py:104 | the leaderboard is in non-increasing order of problems solved |
| Friends.SortIsPermutation | app/routes/friends.py:104 | the leaderboard holds exactly the collected entries |
| Friends.SortIsStable | app/routes/friends.py:104 | entries with the same total keep their collected order |
| Friends.LeaderboardPage | app/routes/friends.py:83-110 | no page without a login; otherwise the viewer's stats if fetched, then each fetched friend's, ranked highest first, stably |

## Left out

- The judge's HTTP client is not part of this model (app/services/leetcode_api.py). `get_recent_submissions` is a total function parameter that returns a possibly empty list, and `ChallengesPage` calls it with the limit 50. `get_user_stats` is a parameter that returns an optional record.
- StudyPlan.ViewStudyPlan: takes the already-fetched submission list rather than the fetch, so the limit 100 of app/routes/study_plan.py:31 is not modelled.
- The store's challenge functions are not part of this model, because their bodies are not in the source files. These are `create_challenge`, `get_challenge_by_id`, `update_challenge_participant_status`, `delete_challenge`, `update_challenge_details` and `get_user_challenges`. They become operations on a map in `ChallengeStore`. The query behind `get_user_challenges` is the caller-supplied document list of `ChallengesPage`.
- `DistinctDocs`: `ChallengesPage` and `ClassifyChallenges` require the documents to be distinct objects. A query returns a fresh dictionary per document, so the case of one document appearing twice is not modelled.
- Python's `.title()` is the parameter `titleCase`. Lower-casing and whitespace are modelled over ASCII only.
- Parsing the date with `strptime` is the parameter `endOfDay`. It yields the end-of-day instant or fails.
- `timedelta.total_seconds()` is a float in the source. The model uses integer seconds. The mismatch between a naive end-of-day expiry and a time-zone-aware comparison is not modelled.
- Classify.TimeLeftOf, Classify.SetTimeLeft: one `now` per page; `ChallengesPage` passes the same instant to every challenge. The source reads the clock twice per challenge, once for the expiry test and once for the difference. A challenge that expires between the two reads gets a negative difference there and shows a text such as "-1d 23h left". The single `now` rules this out.
- Classify.Percent: `progress_percent` is a Python float, and the model uses an exact `real`. Rounding is not modelled.
- Firestore raises when `update` targets a missing document. This becomes `Failure(DocumentMissing)` or a `found = false` result, and nothing changes.
- Transactions, concurrent writers, and the atomicity of ArrayUnion and ArrayRemove are not modelled.
- Rendering, `flash` messages and redirects are outcome tags. The GET branch of `create_challenge` is not modelled (it renders the friend list through `get_friends`, which is modelled).
- In the study plan:
  - the pending-friend-request count is not modelled;
  - `advance_to_next_question` is not modelled;
  - the login redirect is not modelled (the view is for a logged-in user);
  - a negative cursor is excluded by `nat`, because Python would index from the end.
- In `edit_challenge`, a missing form field (`None`) is not distinguished from a string. The title and description are strings.
- A challenge without a `participants` key is a challenge with an empty participant list.
- The participant map's order is the order in which the store returns the keys.
- Every annotation is a function of the challenge, the cache, `now` and the previous `time_left`. Re-running the page therefore gives the same result, and this is not stated as a separate lemma.
