# LingoFlow core, modelled in Dafny

The model covers the logic behind LingoFlow's spaced-repetition vocabulary trainer:

- **SM-2 scheduler** (`SM2Algorithm.calculate`). It maps an interval, an ease factor and an answer quality to a new interval, a new ease factor and a familiarity change.
- **Review orchestrator** (`ReviewService`):
  - the daily due queue with its per-user, per-day cache;
  - self-ratings ("unknown", "fuzzy", anything else);
  - test answers, including the error-queue variant;
  - the scheduling update of a vocabulary entry;
  - the four-option test question.
- **Learning service** (`LearningService`):
  - sentence submission, which keeps the best-scoring sentence per user and word;
  - the learning-state cache;
  - the input checks and request assembly of article generation.
- **Vocabulary book** (`VocabularyService`): add, batch add-or-get, paging and remove.
- **Profiles and credentials** (`UserService`, `AuthService`):
  - profile read and partial update, and password change;
  - registration, login and token refresh.
- **Statistics** (`StatsController`): the streak loop, the seven-day window and the overview.
- **Dictionary import script** (`scripts/import_dictionary.py`):
  - per-item JSON normalisation with Python truthiness;
  - an upsert that fills only empty fields;
  - set-like tag links;
  - the recomputed `total_words`;
  - the single transaction that an exception rolls back.

The model is arranged as follows:

- The database tables are classes with `seq` or `map` fields (module `Tables`).
- The services are classes that hold references to those tables.
- Redis keys are `map` fields of cache classes.
- "Now" and "today" are day numbers passed in.
- The AI endpoints, the password encoder and the JWT provider are function-valued parameters. They are kept uninterpreted (module `Security`).
- `Collections.shuffle` is a Fisher–Yates pass driven by an arbitrary stream of draws (module `Shuffle`). Only its being a permutation is used.
- Every constant of SM-2 is a multiple of 0.01, so ease factors are exact integer hundredths: 250 is 2.5 and 130 is the floor 1.3.

Each method that changes state states its whole new state in terms of specification functions. Those functions carry the lemmas: SM-2's step table and floor, best-score retention, batch idempotence, page tiling, streak meaning, the upsert's fill-only semantics and the link bookkeeping.

Two behaviours of the code are easy to miss:

- **Duplicate options.** A test question is not guaranteed four distinct options. Distractors are not filtered against the target's meaning text, so the correct meaning can be offered twice (`ReviewService.CorrectOfferedTwice`).
- **Cache invalidation on "known".** `submitRating` deletes today's queue-cache key on every successful path, including the "known" path that changes no schedule.

## Model

| member | source | states |
|---|---|---|
| SM2.RoundedProduct | backend/src/main/java/com/lingoflow/util/SM2Algorithm.java:38 | `Math.round(interval * EF)`: the nearest integer, halves rounded toward positive infinity, for every sign of the product |
| SM2.Calculate | backend/src/main/java/com/lingoflow/util/SM2Algorithm.java:23-53 | the resulting ease factor is at least 1.3 on both branches, for every input |
| SM2.FailureResets | backend/src/main/java/com/lingoflow/util/SM2Algorithm.java:43-50 | quality below 3 gives interval 1, ease max(EF − 0.2, 1.3) and familiarity delta −20 |
| SM2.SuccessFirstIntervals | backend/src/main/java/com/lingoflow/util/SM2Algorithm.java:33-36 | on success, interval 0 becomes 1 and interval 1 becomes 6, whatever the ease |
| SM2.SuccessLaterInterval | backend/src/main/java/com/lingoflow/util/SM2Algorithm.java:30-38 | on success from interval ≥ 2, the new interval is round(interval × the NEW ease), where the new ease is old + step, floored at 1.3 |
| SM2.NewEaseNotOld | backend/src/main/java/com/lingoflow/util/SM2Algorithm.java:37-38 | using the new ease is observable: interval 10, ease 2.5, quality 3 give 24 days, not 25 |
| SM2.SuccessFlatDelta | backend/src/main/java/com/lingoflow/util/SM2Algorithm.java:42 | familiarity rises by a flat 15 for every quality ≥ 3 |
| SM2.SuccessEaseSteps | backend/src/main/java/com/lingoflow/util/SM2Algorithm.java:30-31 | from ease ≥ 1.44, quality 5 adds 0.1, quality 4 keeps the ease, quality 3 subtracts 0.14 |
| SM2.IntervalPositive | backend/src/main/java/com/lingoflow/util/SM2Algorithm.java:28-50 | from a non-negative interval and an ease at or above the floor, the next interval is at least one day |
| SM2.RepeatedFailures | backend/src/main/java/com/lingoflow/util/SM2Algorithm.java:45 | n failures in a row give max(EF − 0.2n, 1.3), never below 1.3 |
| SM2.FloorIsFixedPoint | backend/src/main/java/com/lingoflow/util/SM2Algorithm.java:45 | a failure at ease 1.3 leaves the ease at 1.3 |
| ReviewService.Reviewed | backend/src/main/java/com/lingoflow/service/ReviewService.java:179-194 | the entry after applySM2: nulls default to interval 0, ease 2.5, familiarity 0 and count 0. The scheduler's interval and ease are stored. Next review = now + interval; last review = now; review count + 1; familiarity = old + delta clamped to [0, 100]. Identity and word are kept, and the scheduling invariants are preserved |
| ReviewService.RepeatedReviews | backend/src/main/java/com/lingoflow/service/ReviewService.java:179-194 | over any sequence of qualities, familiarity stays in [0, 100], the ease stays ≥ 1.3, and the review count grows by exactly one per review |
| ReviewService.ScenarioUnknown | backend/src/main/java/com/lingoflow/service/ReviewService.java:98-100 | "unknown" from interval 0, ease 2.5, familiarity 50 gives 1 day, ease 2.3, familiarity 30 |
| ReviewService.ScenarioKnownCorrect | backend/src/main/java/com/lingoflow/service/ReviewService.java:146-148 | a correct answer from interval 1 gives 6 days, ease 2.6, familiarity 65, next review now + 6 |
| ReviewService.ScenarioKnownWrong | backend/src/main/java/com/lingoflow/service/ReviewService.java:149-152 | a wrong answer from interval 1 gives 1 day, ease 2.3, familiarity 30 |
| ReviewService.Grade | backend/src/main/java/com/lingoflow/service/ReviewService.java:98-116 | a rating grades at once exactly when it is "unknown" or "fuzzy", and then with a failing quality; anything else, null included, asks for a test |
| ReviewService.AnswerQuality | backend/src/main/java/com/lingoflow/service/ReviewService.java:145-152 | an answer counts as a success for SM-2 exactly when it is correct |
| ReviewService.QueueCache.constructor | backend/src/main/java/com/lingoflow/service/ReviewService.java:32-33 | the queue cache starts empty |
| ReviewService.ProjectedLength | backend/src/main/java/com/lingoflow/service/ReviewService.java:47-59 | the item list is never longer than the rows, and exactly as long when every row has a word |
| ReviewService.ProjectedMembers | backend/src/main/java/com/lingoflow/service/ReviewService.java:48-58 | an item is listed exactly when some row with a non-null word projects to it |
| ReviewService.FreshQueue | backend/src/main/java/com/lingoflow/service/ReviewService.java:45-63 | a rebuilt queue has `total` equal to its length, at most 100, and lists only due rows that have a word |
| ReviewService.BuildQueueWords | backend/src/main/java/com/lingoflow/service/ReviewService.java:47-59 | the loop yields the projection of the rows, in order |
| ReviewService.Distractors | backend/src/main/java/com/lingoflow/service/ReviewService.java:207-212 | the distractors are duplicate-free, and a meaning is one exactly when a word with another id has it |
| ReviewService.GenerateTestQuestion | backend/src/main/java/com/lingoflow/service/ReviewService.java:202-228 | the question asks for the target word and its phonetic. The options are the correct meaning plus min(3, d) distinct distractors, in some order, so there are 1 + min(3, d) of them and the correct meaning is among them |
| ReviewService.PickedOptions | backend/src/main/java/com/lingoflow/service/ReviewService.java:214-218 | the first three of a permutation of the distractors, plus the correct meaning and permuted again, form valid options |
| ReviewService.FourOptions | backend/src/main/java/com/lingoflow/service/ReviewService.java:215-217 | with at least three distractors there are exactly four options |
| ReviewService.CorrectOfferedOnce | backend/src/main/java/com/lingoflow/service/ReviewService.java:207-218 | when no other word shares the target's meaning, the correct meaning appears exactly once |
| ReviewService.CorrectOfferedTwice | backend/src/main/java/com/lingoflow/service/ReviewService.java:207-218 | when another word has the same meaning, it is a distractor too: the options are that meaning twice |
| ReviewService.ReviewService.constructor | backend/src/main/java/com/lingoflow/service/ReviewService.java:22-26 | the service keeps the stores it is given |
| ReviewService.ReviewService.GetReviewQueue | backend/src/main/java/com/lingoflow/service/ReviewService.java:31-76 | a readable cached queue for (user, today) is returned verbatim and nothing changes. Otherwise the fresh queue is returned. It is cached only when it is non-empty and the write succeeds; a failed write is swallowed |
| ReviewService.ReviewService.ApplySM2 | backend/src/main/java/com/lingoflow/service/ReviewService.java:179-197 | the stored entry becomes the reviewed entry; nothing else changes and the store invariants hold |
| ReviewService.ReviewService.SubmitRating | backend/src/main/java/com/lingoflow/service/ReviewService.java:83-123 | an absent or foreign entry gives 3001 with no store or cache touched. Otherwise the raw rating is logged. "unknown" and "fuzzy" apply SM-2 with 0 and 1 and reveal the answer; any other rating applies nothing and returns a valid question. Today's cache key is deleted on every successful path |
| ReviewService.ReviewService.SubmitAnswer | backend/src/main/java/com/lingoflow/service/ReviewService.java:130-174 | an absent or foreign entry gives 3001 with nothing changed. Correctness is exact equality with the meaning. Outside the error queue, SM-2 is applied with 5 or 0, the new schedule is reported and the cache key is deleted. In the error queue neither happens. On both paths only the first listed record gets `testPassed` and `responseTimeMs` |
| LearningService.TrimLeft | backend/src/main/java/com/lingoflow/service/LearningService.java:148 | `trim` removes exactly the leading characters ≤ U+0020 |
| LearningService.TrimRight | backend/src/main/java/com/lingoflow/service/LearningService.java:148 | `trim` removes exactly the trailing characters ≤ U+0020 |
| LearningService.TrimEmptyIffBlank | backend/src/main/java/com/lingoflow/service/LearningService.java:148-150 | a sentence trims to nothing exactly when all of its characters are ≤ U+0020 |
| LearningService.Lower | backend/src/main/java/com/lingoflow/service/LearningService.java:160 | lower-casing keeps the length, leaves no ASCII upper-case letter, and keeps every character that was not one in place |
| LearningService.LowerIdempotent | backend/src/main/java/com/lingoflow/service/LearningService.java:160 | lower-casing twice is lower-casing once |
| LearningService.VerbatimMentions | backend/src/main/java/com/lingoflow/service/LearningService.java:160 | a sentence containing the word verbatim passes the containment check |
| LearningService.CaseIgnored | backend/src/main/java/com/lingoflow/service/LearningService.java:160 | the check ignores letter case: "I like Apples" mentions "apple" |
| LearningService.StateCache.constructor | backend/src/main/java/com/lingoflow/service/LearningService.java:36-37 | the learning-state cache starts empty |
| LearningService.StateCache.Save | backend/src/main/java/com/lingoflow/service/LearningService.java:42-50 | saveLearningState stores the state under the user; a failed write changes nothing and is not reported |
| LearningService.StateCache.Get | backend/src/main/java/com/lingoflow/service/LearningService.java:55-68 | getLearningState returns null for a missing key and the parsed state otherwise; a value that fails to parse is deleted |
| LearningService.StateCache.SaveThenGet | backend/src/main/java/com/lingoflow/service/LearningService.java:42-68 | a successful saveLearningState followed by getLearningState for the same user returns the saved state and leaves it cached |
| LearningService.StateCache.Clear | backend/src/main/java/com/lingoflow/service/LearningService.java:73-75 | the user's key is deleted and nothing else |
| LearningService.RequestWords | backend/src/main/java/com/lingoflow/service/LearningService.java:91-99 | the request never has more words than the listed entries |
| LearningService.RequestWordsMembers | backend/src/main/java/com/lingoflow/service/LearningService.java:91-99 | a word pair is requested exactly when a listed entry with a non-null word gives it |
| LearningService.CollectWords | backend/src/main/java/com/lingoflow/service/LearningService.java:91-99 | the loop yields the request words, in list order |
| LearningService.RequestForChoices | backend/src/main/java/com/lingoflow/service/LearningService.java:102-108 | with nothing chosen the request asks for a short article of medium difficulty and no theme, and an empty theme counts as none; chosen values are sent as chosen |
| LearningService.RequestForSettles | backend/src/main/java/com/lingoflow/service/LearningService.java:102-108 | a built request fed back into the builder comes out unchanged: defaults and the theme filter settle in one application |
| LearningService.KeepBest | backend/src/main/java/com/lingoflow/service/LearningService.java:186-228 | the new record is kept when none is stored or its score is at least the stored one (ties replace). The stored score becomes max(old, new), and every other key is untouched |
| LearningService.BestOfAll | backend/src/main/java/com/lingoflow/service/LearningService.java:186-228 | after any series of submissions, the stored score is the maximum of them all and of the score stored before |
| LearningService.LearningService.constructor | backend/src/main/java/com/lingoflow/service/LearningService.java:25-31 | the service keeps the stores it is given |
| LearningService.LearningService.GenerateArticle | backend/src/main/java/com/lingoflow/service/LearningService.java:79-145 | no ids, or no stored entry among them, gives 2010 before the AI is asked. A failed AI reply gives 2011. On success exactly one session of type "article" is appended, with the requested (not the found) word count, and its id is returned |
| LearningService.LearningService.SubmitSentence | backend/src/main/java/com/lingoflow/service/LearningService.java:147-239 | in order: a blank sentence gives 2020, a missing entry or null word gives 2003, a sentence without the word gives 2021, and a failed evaluation gives 2011; none of these changes the store. On success the store keeps the best for (user, word), and `replaced` and `previousScore` report the old record |
| LearningService.LearningService.StoreBest | backend/src/main/java/com/lingoflow/service/LearningService.java:186-228 | the delete-and-insert (or keep) leaves exactly the keep-best store; `replaced` is true exactly when a stored record was present and not better |
| LearningService.LearningService.ClearLearningState | backend/src/main/java/com/lingoflow/service/LearningService.java:73-77 | the user's learning-state key is deleted |
| VocabularyService.Step | backend/src/main/java/com/lingoflow/service/VocabularyService.java:46-53 | one step of the batch never moves the id counter back |
| VocabularyService.StepValid | backend/src/main/java/com/lingoflow/service/VocabularyService.java:46-53 | a batch step keeps at most one entry per (user, word) and the other table invariants |
| VocabularyService.BatchKeeps | backend/src/main/java/com/lingoflow/service/VocabularyService.java:46-54 | the batch keeps the invariants and every stored entry; each entry it adds is the user's, for a requested word, with familiarity 0 |
| VocabularyService.BatchCovers | backend/src/main/java/com/lingoflow/service/VocabularyService.java:46-54 | after the batch, the user has an entry for every requested word that the catalog knows |
| VocabularyService.StepKeepsEntries | backend/src/main/java/com/lingoflow/service/VocabularyService.java:46-53 | a batch step never loses a (user, word) entry |
| VocabularyService.BatchNothingNew | backend/src/main/java/com/lingoflow/service/VocabularyService.java:46-54 | when every requested word is already in the book or unknown, the batch changes nothing |
| VocabularyService.BatchIdempotent | backend/src/main/java/com/lingoflow/service/VocabularyService.java:44-58 | running the batch a second time with the same ids adds nothing |
| VocabularyService.PageOf | backend/src/main/java/com/lingoflow/service/VocabularyService.java:60-63 | the page starts at offset (page − 1) × pageSize and holds at most pageSize consecutive entries, exactly pageSize when enough remain. A negative offset or size is rejected |
| VocabularyService.PagesTile | backend/src/main/java/com/lingoflow/service/VocabularyService.java:60-63 | pages 1..n, one after another, are exactly the first n × pageSize entries |
| VocabularyService.VocabularyService.constructor | backend/src/main/java/com/lingoflow/service/VocabularyService.java:18-19 | the service keeps the stores it is given |
| VocabularyService.VocabularyService.AddToVocabulary | backend/src/main/java/com/lingoflow/service/VocabularyService.java:21-42 | an unknown word gives 2002, then an existing (user, word) gives 2001, both with nothing inserted. Otherwise one entry with familiarity 0 is inserted under the next id, which is returned |
| VocabularyService.VocabularyService.BatchAddOrGet | backend/src/main/java/com/lingoflow/service/VocabularyService.java:44-58 | the loop leaves the table as the batch specifies and returns the user's entries for the requested words |
| VocabularyService.VocabularyService.RemoveFromVocabulary | backend/src/main/java/com/lingoflow/service/VocabularyService.java:69-74 | the user's entry is deleted; when no entry of the user has the id, 2003 is returned with nothing changed |
| UserService.ProfileOf | backend/src/main/java/com/lingoflow/service/UserService.java:26-47 | every failure is 404. On a well-formed table a profile is found exactly when a user has the id, it shows that id, and its streak is always 0 |
| UserService.ProfileShowsUpdate | backend/src/main/java/com/lingoflow/service/UserService.java:52-92 | the profile read after an accepted update shows the new non-empty email, each non-null avatar, goal and level, and the stored value of every field left out, with streak 0 |
| UserService.ResubmittedProfileChangesNothing | backend/src/main/java/com/lingoflow/service/UserService.java:26-92 | sending back the profile just read is accepted when the stored goal and level are in range, since the user's own email never counts as taken, and it rewrites the user unchanged |
| UserService.Patched | backend/src/main/java/com/lingoflow/service/UserService.java:59-87 | a non-empty email and any non-null avatar (even ""), goal or level replace the stored value; identity and password are kept |
| UserService.PatchIdempotent | backend/src/main/java/com/lingoflow/service/UserService.java:59-87 | applying the same update twice is applying it once |
| UserService.EmptyRequestKeepsUser | backend/src/main/java/com/lingoflow/service/UserService.java:60-87 | an all-null request, or one with only an empty email, changes nothing |
| UserService.AcceptedFieldsInRange | backend/src/main/java/com/lingoflow/service/UserService.java:74-87 | after an accepted update, a goal the request set is in [1, 100] and a level it set is valid |
| UserService.EmailFree | backend/src/main/java/com/lingoflow/service/UserService.java:60-66 | an email found for no other user is held by no other row |
| UserService.ReplaceKeepsValid | backend/src/main/java/com/lingoflow/service/UserService.java:89 | writing back a row with the same identity and an unshared email keeps the table invariants |
| UserService.AcceptedKeepsValid | backend/src/main/java/com/lingoflow/service/UserService.java:59-89 | writing back an accepted update keeps usernames and non-empty emails unique |
| UserService.UserService.constructor | backend/src/main/java/com/lingoflow/service/UserService.java:19-21 | the service keeps the stores and encoder it is given |
| UserService.UserService.UpdateProfile | backend/src/main/java/com/lingoflow/service/UserService.java:52-92 | an unknown user gives 404 and a rejected request (foreign email, goal outside [1, 100], invalid level) gives 400, both with nothing written. Otherwise the patched user is written once and the fresh profile returned |
| UserService.UserService.ChangePassword | backend/src/main/java/com/lingoflow/service/UserService.java:97-117 | new ≠ confirm gives 400 before the lookup. Then an unknown user gives 404 and a wrong current password 400, none writing. On success only the hash changes, to encode(new) |
| AuthService.RegisterCheck | backend/src/main/java/com/lingoflow/service/AuthService.java:27-40 | in both directions: 1003 when the passwords differ; otherwise 1001 for a taken username; otherwise 1002 for a taken non-empty email |
| AuthService.NewAccountPassesProfileChecks | backend/src/main/java/com/lingoflow/service/AuthService.java:47-48 | a new account's goal 20 lies in [1, 100] and its level "medium" is valid, so a profile update setting those values is accepted |
| AuthService.Login | backend/src/main/java/com/lingoflow/service/AuthService.java:58-84 | every failure is 1010. Login succeeds exactly when the first account with the username matches the password, and then returns that user's tokens, id, name, avatar and lifetime / 1000 |
| AuthService.LoginIffCredentials | backend/src/main/java/com/lingoflow/service/AuthService.java:60-68 | with unique usernames, login succeeds exactly when some account has the username and a matching hash |
| AuthService.LoginFailuresAlike | backend/src/main/java/com/lingoflow/service/AuthService.java:60-68 | an unknown username and a wrong password give the same answer |
| AuthService.RefreshToken | backend/src/main/java/com/lingoflow/service/AuthService.java:86-100 | 1020 exactly when the token is invalid or not a refresh token; otherwise a new access token for the token's claims |
| AuthService.AuthService.constructor | backend/src/main/java/com/lingoflow/service/AuthService.java:21-23 | the service keeps the store and the credential services it is given |
| AuthService.AuthService.Register | backend/src/main/java/com/lingoflow/service/AuthService.java:25-56 | a rejected registration changes nothing. Otherwise one user is appended, with the next id, encode(password), goal 20 and level "medium", and the table invariants hold |
| StatsController.RunMeaning | backend/src/main/java/com/lingoflow/controller/StatsController.java:100-110 | a run is a block of active days that ends at the 365-day horizon or at an inactive day |
| StatsController.StreakMeaning | backend/src/main/java/com/lingoflow/controller/StatsController.java:95-113 | the streak lies in [0, 365]. It counts the consecutive active days from today, or from yesterday when today is inactive, up to the first inactive day |
| StatsController.InactiveTodayKeepsStreak | backend/src/main/java/com/lingoflow/controller/StatsController.java:105-108 | an inactive today with an active yesterday still gives a streak of at least 1 |
| StatsController.CalculateStreak | backend/src/main/java/com/lingoflow/controller/StatsController.java:95-113 | the loop with its `break` computes exactly the streak; a null count is inactivity |
| StatsController.GetWeeklyStats | backend/src/main/java/com/lingoflow/controller/StatsController.java:63-93 | exactly seven days, strictly increasing and ending today, with null counts reported as 0 |
| StatsController.GetOverview | backend/src/main/java/com/lingoflow/controller/StatsController.java:25-57 | null counts become 0, the streak is the streak in [0, 365], and the daily goal is the constant 20 |
| Tables.FindWord | backend/src/main/java/com/lingoflow/mapper/WordMapper.java:12 | a word is found exactly when the catalog has one with that id |
| Tables.FindByUsername | backend/src/main/java/com/lingoflow/mapper/UserMapper.java:12 | the first user with the username, and none exactly when no user has it |
| Tables.FindByEmail | backend/src/main/java/com/lingoflow/mapper/UserMapper.java:14 | the first user with the email, and none exactly when no user has it |
| Shuffle.ShuffleFrom | backend/src/main/java/com/lingoflow/service/ReviewService.java:214 | each remaining swap step keeps the length and the multiset |
| Shuffle.Shuffled | backend/src/main/java/com/lingoflow/service/ReviewService.java:214 | `Collections.shuffle` yields a permutation of its input, whatever the draws |
| Shuffle.PermutationKeepsDistinct | backend/src/main/java/com/lingoflow/service/ReviewService.java:211-214 | shuffling distinct distractors keeps them distinct |
| ImportDictionary.FirstTruthy | scripts/import_dictionary.py:62 | the position of the first truthy operand of an `or` chain, and none exactly when all are falsy |
| ImportDictionary.StripLeft | scripts/import_dictionary.py:66 | `strip` removes exactly the leading whitespace |
| ImportDictionary.StripRight | scripts/import_dictionary.py:66 | `strip` removes exactly the trailing whitespace |
| ImportDictionary.StripMeaning | scripts/import_dictionary.py:66 | the stripped word neither starts nor ends with whitespace, and it is the input with only whitespace removed around it |
| ImportDictionary.StripIdempotent | scripts/import_dictionary.py:66 | stripping twice is stripping once |
| ImportDictionary.WrapPhonetic | scripts/import_dictionary.py:69-72 | the phonetic is empty or starts with '/'. A non-empty one without the slash becomes /p/, with brackets kept |
| ImportDictionary.Normalize | scripts/import_dictionary.py:60-101 | an item with no truthy `word`/`headWord` is skipped. A stored item's word is the stripped word text, and its phonetic is empty or starts with '/'. The stored meanings and example are stated by the lemmas below |
| ImportDictionary.NoWordSkipped | scripts/import_dictionary.py:62-64 | an item with neither `word` nor `headWord` is skipped |
| ImportDictionary.StoredMeaning | scripts/import_dictionary.py:74-76 | a stored item's Chinese meaning is the first truthy of `trans`, `meaning` and `mean`: a string as it is, a list of strings joined with "; " |
| ImportDictionary.NoMeaningStoredEmpty | scripts/import_dictionary.py:74 | with none of `trans`, `meaning` and `mean` truthy the stored meaning is '' |
| ImportDictionary.NonStringMeaningRaises | scripts/import_dictionary.py:75-76 | a meaning list holding a non-string makes `"; ".join` raise, which stops the script |
| ImportDictionary.StoredDefinition | scripts/import_dictionary.py:79 | a stored item's English meaning is a string `definition`, or '' when `definition` is falsy |
| ImportDictionary.StoredExample | scripts/import_dictionary.py:82-89 | a stored item's example is '' without truthy `examples`. Otherwise it comes from the first element of the list: a dict's string `sentence`, '' for a dict without one, a string itself, '' for anything else |
| ImportDictionary.StringItemStored | scripts/import_dictionary.py:60-101 | an item whose word is a non-empty string and whose values are all strings or null is stored under its stripped word |
| ImportDictionary.JoinExample | scripts/import_dictionary.py:75-76 | an illustration: two string meanings are joined with "; " |
| ImportDictionary.ExampleCases | scripts/import_dictionary.py:82-89 | the first element of `examples`: a dict's `sentence`, a string itself, anything else "". A string `examples` gives its first character; an object cannot be indexed |
| ImportDictionary.Merged | scripts/import_dictionary.py:93-101 | a new word gets a row with the next id. An existing row keeps its id and every non-empty field, and each NULL or '' field takes the incoming value |
| ImportDictionary.UpsertKeeps | scripts/import_dictionary.py:93-101 | the upsert never removes a word and never overwrites a non-empty field |
| ImportDictionary.UpsertIdempotent | scripts/import_dictionary.py:93-101 | upserting the same values twice is upserting them once |
| ImportDictionary.Outcomes | scripts/import_dictionary.py:60 | one outcome per item of the file, the k-th being the normalisation of the k-th item |
| ImportDictionary.ApplyOutcomeIdempotent | scripts/import_dictionary.py:93-125 | storing and linking the same item twice has the effect of once: a duplicate link is ignored |
| ImportDictionary.ApplyOutcomesMeaning | scripts/import_dictionary.py:60-125 | over a file, no non-empty field is overwritten and no word id changes. Links are only added, only for this dictionary, and every stored word is linked |
| ImportDictionary.FindDict | scripts/import_dictionary.py:136-140 | the dictionary found by name has that name, and none is found exactly when no row has it |
| ImportDictionary.FindDictByNames | scripts/import_dictionary.py:136-140 | the lookup depends on the names alone |
| ImportDictionary.EnsureDict | scripts/import_dictionary.py:136-156 | afterwards the dictionary exists. A missing one is appended with `description or name` and 0 words. A found one keeps its place, name and total; its description changes only to a truthy new one, and every other row is untouched |
| ImportDictionary.DifferenceAdds | scripts/import_dictionary.py:115-125 | the new links of consecutive steps add up |
| ImportDictionary.DictionaryDb.constructor | scripts/import_dictionary.py:130-131 | the database starts with no words, tags or dictionaries |
| ImportDictionary.DictionaryDb.StoreWord | scripts/import_dictionary.py:93-125 | upsert, id lookup and link: `isNew` is true exactly when the link did not exist, and then exactly one link is added; otherwise the links are unchanged |
| ImportDictionary.DictionaryDb.ProcessOutcome | scripts/import_dictionary.py:60-125 | a skipped or unstorable item changes nothing; a ready item is stored and linked, counting one upsert and its new links |
| ImportDictionary.DictionaryDb.ProcessOutcomes | scripts/import_dictionary.py:57-127 | the item loop raises exactly when an item does. Otherwise the tables are as specified, `local_added` counts the upserts, and `local_linked` counts exactly the new links |
| ImportDictionary.DictionaryDb.ProcessFile | scripts/import_dictionary.py:48-127 | an unreadable file counts (0, 0). A list is processed item by item. Iterating another value yields nothing (empty object or string) or raises |
| ImportDictionary.DictionaryDb.ProcessFiles | scripts/import_dictionary.py:159-174 | the files in turn until one raises, with the summed upserts and new links |
| ImportDictionary.DictionaryDb.EnsureDictionary | scripts/import_dictionary.py:134-156 | the dictionary rows become the ensured ones, and the id is the row of the dictionary with that name |
| ImportDictionary.DictionaryDb.UpdateTotal | scripts/import_dictionary.py:177-181 | `total_words` becomes the number of the dictionary's links; nothing else changes |
| ImportDictionary.DictionaryDb.ImportWords | scripts/import_dictionary.py:129-193 | when an item raises, every table is as before. Otherwise the files' effect is committed, `total_words` equals the dictionary's link count, `total_added` counts the upserts and `total_linked` the new links |

## Left out

- Java `float` arithmetic of the ease factor is not modelled. Ease factors are exact hundredths, so rounding artefacts such as 2.5f − 0.2f ≠ 2.3 do not arise.
- SM2.RoundedProduct: the product is exact. `Math.round(float)` rounds the float product, and the model does not cover products that a float cannot represent exactly.
- 32-bit integer overflow in `reviewCount`, ids and counters is not modelled. The model's integers are unbounded.
- The mapper SQL is not shown:
  - the due query `findByUserId(userId, "review", 0, 100)` is a parameter listing some due rows of the user; the model applies the LIMIT of 100;
  - `findByUserIdAndVocabularyId` is a parameter listing exactly the matching records, in an order the mapper picks;
  - `getVocabularyByIds` is the entries with the requested ids;
  - VocabularyService.VocabularyService.BatchAddOrGet: `findByUserIdAndWordIds` is not declared in the VocabularyMapper interface as written. Its result is modelled as the set of the user's entries for the requested ids, so the order of the returned list is not modelled;
  - LearningService.LearningService.SubmitSentence: `findSentenceByUserIdAndWordId` is modelled as one best record per (user, word). The model does not cover a second matching row, which would make MyBatis throw and `submitSentence` answer 2011 (LearningService.java:236-237). It also takes the record to belong to the caller: a SessionWord stores only the session and vocabulary ids (LearningService.java:197-204 and 217-224), and the vocabulary id is not checked against the user (LearningService.java:152). KeepBest and BestOfAll rest on both assumptions;
  - the column defaults the database fills on insert (creation times, status) are not modelled.
- Redis expiry (24 hours for the queue, 1 hour for the learning state) and JSON serialisation are not modelled. A cached value either reads back as what was written or fails to parse.
- The learning state is a map of strings to strings rather than arbitrary JSON.
- `LocalDate.now()` and `LocalDateTime.now()` are day-number parameters. Calendar arithmetic, time of day and the "MM-dd" date formatting of the weekly stats are not modelled.
- `Collections.shuffle`'s randomness is a stream of draws passed in. Only the permutation property is used.
- The AI service calls are not modelled. The article and evaluation endpoints are function parameters returning success or failure, and HTTP, timeouts and the response-map casts are out.
- `PasswordEncoder` and `JwtTokenProvider` are uninterpreted functions.
- `WordService.clearLearningProgress` is not modelled. It is called by `clearLearningState` and by a successful `generateArticle`; WordService's progress store is not part of this model.
- `getSessionById`, `getVocabularyById` and `getUserVocabularyCount` are not modelled. They are single mapper calls with no logic of their own.
- Controllers other than StatsController's counting, GlobalExceptionHandler, DictionaryService progress (a floating-point percentage), the frontend and the AI service are not modelled.
- The message texts of exceptions, and the `message` field of the sentence result, are left out. Only the numeric codes are modelled.
- ReviewService.ReviewService.SubmitAnswer: a catalog word's `meaningCn` is never null in the model. The exception at ReviewService.java:137-138 for a null meaning (a 500 before any change) is not modelled.
- LearningService.LearningService.SubmitSentence: a catalog word's text is never null in the model. The exception from `targetWord.toLowerCase()` at LearningService.java:157-160 (a 500 before any change) is not modelled.
- ReviewService.GenerateTestQuestion: a null meaning among the distractors is not representable, because `Word.word` and `Word.meaningCn` are non-null strings in the model.
- A null joined word is not modelled by its exception detail. In `submitRating` and `submitAnswer` it is the generic handler's 500, after the side effects that precede the dereference.
- Concurrency is not modelled (duplicate submissions, cache writes racing with invalidation). Each call is one atomic step.
- Unicode is not modelled:
  - Java's `toLowerCase` is modelled on ASCII letters only;
  - Python's `str.strip` uses the `str.isspace` set listed in the model;
  - MySQL's case- and accent-insensitive collation is not modelled. The word key, the dictionary-name lookup and the `= ''` test of the upsert all compare exact text.
- The import script's JSON floating-point values are not modelled.
- The import script's auto-increment ids are modelled as gapless: a new word takes the next id, and an upsert of an existing word or a rolled-back import consumes none. InnoDB does consume ids in those cases, so real ids can have gaps. The model's word and dictionary ids are therefore stand-ins: they can differ from the database's once gaps occur. The same holds for the `users` and `learning_sessions` tables: the row with id k is row k - 1, and AuthService.AuthService.Register and LearningService.LearningService.GenerateArticle give a new row the id |rows| + 1. The `user_vocabulary` table draws fresh ids from a counter.
- The import script's rejection of a NULL value by a NOT NULL column is not modelled, because the schema is not part of this model. Every stored field is nullable here.
- The import script's per-item database errors from the connector are not modelled beyond unconvertible parameters (a list or dict value), which skip the item.
- The import script's command-line parsing and connection setup are not modelled.
- The import script's `os.path.isdir`/`glob` choice of files is not modelled. The files are a parameter, in the order glob would list them.
- A non-database exception in the import script (an `AttributeError` or `TypeError` from an unexpected JSON shape) is modelled as leaving every table as it was. This holds because the script commits only at the end.
- ImportDictionary.DictionaryDb.ProcessFile: each file's items are normalised before any of them is stored. This has the same effect as the script's interleaving: normalisation reads only the item, and an item that raises discards the whole uncommitted import.
