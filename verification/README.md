# SmartCaddie bookkeeping core, in Dafny

SmartCaddie is a golf companion: a FastAPI backend keeps users, their
clubs, courses and played rounds, computes a handicap index from the rounds,
and lets a ReAct agent call shot-adjustment tools. A React Native client
holds the round in play and the registration wizard in small stores.

This project models the rule-based part of that system and proves what it
promises:

- **the handicap engine**: score differentials with 9-hole normalisation,
  the table of how many best differentials count, the 0.96 average, the
  soft and hard caps, and the flags on the rounds that were used;
- **the two rounds routers**, the course-based one and the configured-holes
  one. They cover starting a round (at most one active round per user,
  hole configuration checks), hole score updates with recomputed totals,
  completing once, history pages and deleting a round with its hole scores.
  They run over an in-memory database class, `GolfDb.Db`, with one sequence
  per table;
- **the course catalog**: yards to metres, course records rebuilt tee by
  tee and hole by hole, and the tee-name filter;
- **the user and club endpoints**: the club table operations, the
  password-change guards and the profile merges;
- **the agent's act node**: tool lookup and the normalisation of a tool
  input. A dict is forwarded, a brace string is parsed, and a
  `key=value, ...` string is scanned with coerced values;
- **the three shot calculators**: wind, lie and ground;
- **the client stores**: the round store's hole cursor and its local
  totals, and the registration wizard's club list;
- **the handicap formatter**.

Amounts the backend rounds to tenths are exact `real`s. Python's
`round(x, 1)` is `Numeric.RoundTenth`, characterised by its error bound and
monotonicity. The database is a class whose methods reassign its tables.
The wall clock is a `now` parameter. The parsers and the password hash are
function parameters, and server replies reach the client stores as a
`Reply` parameter.

## Model

| member | source | states |
|---|---|---|
| Numeric.RoundTenth | backend/app/api/v1/core/course_endpoints/handicap.py:90 | the rounded value is within half a tenth of the exact one |
| Numeric.RoundTenthMonotone | backend/app/api/v1/core/course_endpoints/handicap.py:90 | rounding to a tenth never reverses the order of two values |
| Numeric.MeanBounds | backend/app/api/v1/core/course_endpoints/handicap.py:87 | the average of values between lo and hi is itself between lo and hi |
| Sorting.SortBy | backend/app/api/v1/core/course_endpoints/handicap.py:64 | `sorted()`: the result is ascending by the key and a permutation of the input |
| Sorting.SortByOrderIndependent | backend/app/api/v1/core/course_endpoints/handicap.py:64 | with an injective key, sorting two permutations of one list gives the same list |
| Sorting.SortedPermutationUnique | backend/app/api/v1/core/course_endpoints/handicap.py:64 | two sorted permutations of one multiset under an injective key are equal |
| Sorting.PrefixIsSmallest | backend/app/api/v1/core/course_endpoints/handicap.py:86 | in a sorted list, every element of a prefix is at most every element after it |
| Sorting.Page | backend/app/api/v1/core/course_endpoints/rounds_endpoints.py:195-205 | offset/limit: exactly min(limit, entries left after offset) entries, entry k being the list's entry offset+k |
| Sorting.PagesAreConsecutive | backend/app/api/v1/core/course_endpoints/rounds_endpoints.py:195-205 | two adjacent pages concatenate to the page spanning both: paging neither skips nor repeats an entry |
| Sorting.SortedPrefixLeast | backend/app/api/v1/core/course_endpoints/handicap.py:42-48 | in a sorted list the first k are the k least: no element left after them has a smaller key |
| Sorting.FirstBy | backend/app/api/v1/core/course_endpoints/handicap.py:42-48 | `ORDER BY key LIMIT n`: min(n, all) entries, sorted, a sub-multiset of the input, and nothing left out has a smaller key than a kept entry |
| Seqs.Filter | backend/app/api/v1/core/course_endpoints/rounds_endpoints.py:246 | every kept element comes from the input and matches, and every matching element is kept |
| Seqs.FilterRemove | frontend/store/roundStore.js:288-290 | removing a non-matching element leaves the filtered list unchanged; removing a matching one shortens it by exactly one |
| Handicap.ScoreDifferential | backend/app/api/v1/core/course_endpoints/handicap.py:8-40 | the stored differential is within half a tenth of (113 / slope) x (score - rating) on the 18-hole basis |
| Handicap.EighteenHoleRoundsUnscaled | backend/app/api/v1/core/course_endpoints/handicap.py:23-37 | a round that is not a 9-hole round uses score and rating as given |
| Handicap.NineHoleNormalisation | backend/app/api/v1/core/course_endpoints/handicap.py:23-34 | a 9-hole score is doubled; the rating is halved and then doubled iff it exceeds 1.5 x total par |
| Handicap.DifferentialMonotoneInScore | backend/app/api/v1/core/course_endpoints/handicap.py:8-40 | with a positive slope, a higher score never yields a lower differential |
| Handicap.DifferentialNonNegative | backend/app/api/v1/core/course_endpoints/handicap.py:37-40 | a score at or above the rating yields a non-negative differential |
| Handicap.NumToUse | backend/app/api/v1/core/course_endpoints/handicap.py:67-83 | the count used is between 1 and 8, at most the number of rounds from 3 rounds on, and 8 exactly from 20 rounds on |
| Handicap.NumToUseMonotone | backend/app/api/v1/core/course_endpoints/handicap.py:67-83 | more rounds never use fewer differentials |
| Handicap.ExperiencedNumToUse | backend/app/api/v1/core/course_endpoints/handicap.py:177-188 | experienced golfers with 12 or more rounds use between 4 and 8 differentials |
| Handicap.ExperiencedTableAgrees | backend/app/api/v1/core/course_endpoints/handicap.py:159-188 | from 12 rounds on, the experienced golfers' table and the general table agree |
| Handicap.Lowest | backend/app/api/v1/core/course_endpoints/handicap.py:64-86 | the best k are k of the input's values, ascending |
| Handicap.LowestAreFromInput | backend/app/api/v1/core/course_endpoints/handicap.py:86 | every selected differential is one of the input differentials |
| Handicap.LowestAreSmallest | backend/app/api/v1/core/course_endpoints/handicap.py:64-86 | every selected differential is at most every differential left out |
| Handicap.LowestOrderIndependent | backend/app/api/v1/core/course_endpoints/handicap.py:64-86 | the selection depends only on the multiset of differentials |
| Handicap.HandicapIndex | backend/app/api/v1/core/course_endpoints/handicap.py:50-90 | there is no index (None) iff fewer than 3 differentials are given |
| Handicap.HandicapIndexOrderIndependent | backend/app/api/v1/core/course_endpoints/handicap.py:50-90 | the index does not depend on the order of the differentials |
| Handicap.HandicapIndexWithinRange | backend/app/api/v1/core/course_endpoints/handicap.py:86-90 | differentials within [lo, hi] give an index between round(0.96 lo) and round(0.96 hi) |
| Handicap.CappedIndex | backend/app/api/v1/core/course_endpoints/handicap.py:199-209 | rises up to 3 and all decreases pass unchanged; a rise in (3, 5] becomes current + 3 + half the excess over 3; a rise above 5 becomes exactly current + 5 |
| Handicap.CapBoundaries | backend/app/api/v1/core/course_endpoints/handicap.py:199-209 | at the points +3, +4, +5, +5.5 and +10: a rise of exactly 5 is only soft-capped to +4 while +5.5 is hard-capped to +5 |
| Handicap.HardCapAnyRise | backend/app/api/v1/core/course_endpoints/handicap.py:206-209 | any rise above 5, however large, becomes exactly +5 |
| Handicap.SoftCapRise | backend/app/api/v1/core/course_endpoints/handicap.py:199-205 | a rise in (3, 5] keeps 3 plus half the excess, so the index rises by more than 3 and at most 4 |
| Handicap.HandicapUpdate | backend/app/api/v1/core/course_endpoints/handicap.py:139-209 | no update iff there is no current index, or a new golfer has fewer than 3 rounds, or an experienced one fewer than 12; else 1 <= count <= rounds and the new index is at most current + 5 |
| Handicap.UpdateUsesHandicapIndex | backend/app/api/v1/core/course_endpoints/handicap.py:159-209 | an update is the capped value of the plain handicap index computed on the same differentials |
| Handicap.TiesMarkMoreRoundsThanUsed | backend/app/api/v1/core/course_endpoints/handicap.py:216-221 | with three equal differentials only one is used, yet every round carrying that value is flagged as included |
| Handicap.LastTwentyRounds | backend/app/api/v1/core/course_endpoints/handicap.py:42-48 | all of the user's completed rounds with a differential when there are at most 20, else 20 of them; newest end time first, and none left out finished later than one kept |
| Handicap.DifferentialsOf | backend/app/api/v1/core/course_endpoints/handicap.py:136 | every round's differential is present and every value is some round's differential; when all rounds have one, the list is exactly their differentials in order |
| Handicap.MarkIncluded | backend/app/api/v1/core/course_endpoints/handicap.py:216-221 | only the inclusion flags change: a recent round is flagged iff its differential is present and equals a selected one |
| Handicap.MarkIncludedStep | backend/app/api/v1/core/course_endpoints/handicap.py:216-221 | marking one more recent round changes that round's row and no other |
| Handicap.MarkIncludedKeepsInvariants | backend/app/api/v1/core/course_endpoints/handicap.py:216-221 | setting the flags keeps round ids unique and at most one round active per user |
| Handicap.UpdateRoundHandicapData | backend/app/api/v1/core/course_endpoints/handicap.py:92-114 | a completed round from a known tee gets its differential from the men's rating and slope; every other round is left as it is |
| Handicap.MarkRecentRounds | backend/app/api/v1/core/course_endpoints/handicap.py:216-221 | the loop over the recent rounds leaves the round table equal to MarkIncluded of the old one |
| Handicap.ApplyHandicapUpdate | backend/app/api/v1/core/course_endpoints/handicap.py:212-221 | writes the index and update time for this user only and flags the rounds; the database stays valid |
| Handicap.UpdateUserHandicap | backend/app/api/v1/core/course_endpoints/handicap.py:116-223 | nothing changes when HandicapUpdate declines; otherwise only this user's index and time and the rounds' inclusion flags change; the tables afterwards are HandicapEffect of the tables before |
| Handicap.HandicapEffect | backend/app/api/v1/core/course_endpoints/handicap.py:116-223 | the tables update_user_handicap leaves: same lengths, other users untouched, rounds differing at most in their inclusion flag |
| Handicap.HandicapEffectOnUser | backend/app/api/v1/core/course_endpoints/handicap.py:139-209 | a user without an index is left alone with every round; a user with one keeps an index raised by at most 5 |
| GolfDb.ActiveRound | backend/app/api/v1/core/course_endpoints/rounds_endpoints.py:32-36 | finds an active round of the user exactly when there is one |
| GolfDb.FindOwnedRound | backend/app/api/v1/core/course_endpoints/rounds_endpoints.py:116-122 | finds a round with that id owned by that user, and None iff there is none |
| GolfDb.FindRoundById | backend/app/api/v1/core/course_endpoints/handicap.py:216-218 | finds a round with that id, and None iff there is none |
| GolfDb.FindHole | backend/app/api/v1/core/course_endpoints/rounds_endpoints.py:128-134 | finds the hole score of that round and hole number, and None iff there is none |
| GolfDb.FindUser | backend/app/api/v1/core/course_endpoints/handicap.py:139-140 | finds the user with that id, and None iff there is none |
| GolfDb.FindCourse | backend/app/api/v1/core/course_endpoints/rounds_endpoints.py:44-46 | finds the course with that id, and None iff there is none |
| GolfDb.FindTeeOfCourse | backend/app/api/v1/core/course_endpoints/rounds_endpoints.py:48-53 | finds a tee with that id among the course's own tees, and None iff there is none |
| GolfDb.FindTee | backend/app/api/v1/core/course_endpoints/handicap.py:101-103 | finds a tee with that id in some course, and None iff no course has one |
| GolfDb.TotalsAfterReplace | backend/app/api/v1/core/course_endpoints/rounds_endpoints.py:144-150 | replacing one hole score moves its round's totals by exactly that row's change and leaves other rounds' totals alone |
| GolfDb.TotalsIgnoreOtherRounds | backend/app/api/v1/core/course_endpoints/rounds_endpoints.py:144-150 | rows of other rounds do not count towards a round's totals |
| RoundLifecycle.NewHoleScores | backend/app/api/v1/core/course_endpoints/rounds_endpoints.py:73-82 | one hole score per hole, in order, each with 0 shots and relative score -par |
| RoundLifecycle.TotalsOfNewRound | backend/app/api/v1/core/rounds_endpoints.py:59-86 | the new round's hole rows total 0 shots and the sum of the configured pars |
| RoundLifecycle.CreateRound | backend/app/api/v1/core/course_endpoints/rounds_endpoints.py:56-82 | appends the fresh round with the next id and its hole rows; its totals are 0 shots and the sum of pars; the database stays valid |
| RoundLifecycle.GetActiveRound | backend/app/api/v1/core/course_endpoints/rounds_endpoints.py:90-102 | returns the user's active round exactly when there is one |
| RoundLifecycle.ActiveRoundIsUnique | backend/app/api/v1/core/course_endpoints/rounds_endpoints.py:32-41 | with at most one active round per user, the active round found is the only one |
| RoundLifecycle.GetRoundDetails | backend/app/api/v1/core/course_endpoints/rounds_endpoints.py:210-226 | 404 iff the user owns no round with that id; otherwise that round |
| RoundLifecycle.HistoryPage | backend/app/api/v1/core/course_endpoints/rounds_endpoints.py:193-207 | 422 iff limit is outside 1..50 or offset is negative; otherwise the page of History at offset, holding min(limit, kept rounds after offset) rounds, newest start first |
| RoundLifecycle.History | backend/app/api/v1/core/course_endpoints/rounds_endpoints.py:201-205 | the kept rounds sorted by start time, newest first: a sorted permutation of the filtered table |
| RoundLifecycle.FirstPageIsMostRecent | backend/app/api/v1/core/course_endpoints/rounds_endpoints.py:202-205 | the first page holds min(limit, kept) rounds, the front of the history, and no kept round left off it started later than one on it |
| RoundLifecycle.ConsecutiveHistoryPages | backend/app/api/v1/core/course_endpoints/rounds_endpoints.py:193-207 | the pages at offset and offset+a together are the page of a+b rounds at offset |
| RoundLifecycle.UpdateHoleScore | backend/app/api/v1/core/course_endpoints/rounds_endpoints.py:105-155 | 404 for a missing or foreign round, 400 once completed, 404 for a missing hole; else the hole gets shots and shots - par, the round gets the sums over its holes, and no other round's totals move |
| RoundLifecycle.RecordHoleScore | backend/app/api/v1/core/course_endpoints/rounds_endpoints.py:137-150 | writes the hole row and its round's recomputed totals (relative = shots - par) and nothing else |
| RoundLifecycle.CloseRound | backend/app/api/v1/core/course_endpoints/rounds_endpoints.py:180-182 | only that round changes: completed, with end time and notes |
| RoundLifecycle.RemoveKeepsInvariants | backend/app/api/v1/core/course_endpoints/rounds_endpoints.py:249 | removing a round keeps ids unique and at most one active round per user |
| RoundLifecycle.DeleteRound | backend/app/api/v1/core/course_endpoints/rounds_endpoints.py:229-252 | 404 unless the user owns the round; else that round goes and the hole scores are exactly the other rounds' ones, in order |
| RoundLifecycle.DeleteKeepsOtherHoleScores | backend/app/api/v1/core/course_endpoints/rounds_endpoints.py:246 | deleting a round's hole scores keeps every other round's hole scores as often as before and none of its own |
| CourseRounds.TeeHoleSpecs | backend/app/api/v1/core/course_endpoints/rounds_endpoints.py:73-82 | the holes of the new round are the tee's holes, number and par, in order |
| CourseRounds.StartRound | backend/app/api/v1/core/course_endpoints/rounds_endpoints.py:23-87 | 400 with an active round, 404 for an unknown course, 404 for a tee not of that course; else a new round with the course's hole count and the tee's par, which is now the user's active round |
| CourseRounds.UpdateHandicaps | backend/app/api/v1/core/course_endpoints/rounds_endpoints.py:185-186 | the user and round tables afterwards are HandicapEffect of the rounds once the round's differential is written; ScoredAndKept: the sizes and every other user are kept, and the round changes only in its differential and inclusion flag |
| CourseRounds.CompleteRound | backend/app/api/v1/core/course_endpoints/rounds_endpoints.py:158-190 | 404 for a missing or foreign round, 400 when already completed; else the round is completed with its differential, and users and rounds are HandicapEffect of that table |
| CourseRounds.GetRoundHistory | backend/app/api/v1/core/course_endpoints/rounds_endpoints.py:193-207 | the page at offset of the user's completed rounds, newest start first, as long as the limit and the rounds left allow |
| ConfigRounds.OneTo | backend/app/api/v1/core/rounds_endpoints.py:50-56 | the list 1..n |
| ConfigRounds.HoleNumbers | backend/app/api/v1/core/rounds_endpoints.py:50 | the configured hole numbers, in order |
| ConfigRounds.SequentialCheckIsPermutation | backend/app/api/v1/core/rounds_endpoints.py:50-56 | "sorted numbers equal 1..n" holds iff the numbers are a permutation of 1..n |
| ConfigRounds.PermutationCoversEachHoleOnce | backend/app/api/v1/core/rounds_endpoints.py:50-56 | a passing configuration names each hole 1..n exactly once and nothing else |
| ConfigRounds.OneToCount | backend/app/api/v1/core/rounds_endpoints.py:50-56 | 1..n holds h once if 1 <= h <= n, else not at all |
| ConfigRounds.ConfigError | backend/app/api/v1/core/rounds_endpoints.py:43-56 | no error iff the count matches and the numbers are 1..n; a count mismatch is reported first |
| ConfigRounds.StartRound | backend/app/api/v1/core/rounds_endpoints.py:22-91 | 400 with an active round or a bad configuration, nothing written; else a round with the configured holes, par the sum of pars and zero shots |
| ConfigRounds.CompleteRound | backend/app/api/v1/core/rounds_endpoints.py:162-191 | 404 for a missing or foreign round, 400 when already completed; else only that round becomes completed |
| ConfigRounds.CompleteOnce | backend/app/api/v1/core/rounds_endpoints.py:180-186 | after completing a round, completing it again is refused |
| ConfigRounds.GetRoundHistory | backend/app/api/v1/core/rounds_endpoints.py:194-207 | the page at offset of all of the user's rounds, active ones included, newest start first, as long as the limit and the rounds left allow |
| Courses.ConvertToMeters | backend/app/api/v1/core/course_endpoints/courses.py:10-16 | None stays None; otherwise the integer nearest to yards x 0.9144 |
| Courses.ConvertToMetersMonotone | backend/app/api/v1/core/course_endpoints/courses.py:10-16 | a longer distance never converts to fewer metres |
| Courses.HoleDataOf | backend/app/api/v1/core/course_endpoints/courses.py:42-50 | hole fields and yards copied; metres absent unless asked for, and then ConvertToMeters of the yards |
| Courses.TeeDataOf | backend/app/api/v1/core/course_endpoints/courses.py:28-52 | id, name, ratings, slopes, par and yards copied; metres total absent unless asked for, and then ConvertToMeters of the yards; one HoleDataOf entry per hole in order |
| Courses.PrepareCourseData | backend/app/api/v1/core/course_endpoints/courses.py:18-54 | the course fields and one tee entry per given tee, in order |
| Courses.ListCourses | backend/app/api/v1/core/course_endpoints/courses.py:91-103 | the loop builds exactly the listing: courses in order, tees filtered by name, emptied courses dropped |
| Courses.UnfilteredListsEverything | backend/app/api/v1/core/course_endpoints/courses.py:95-101 | without a tee filter every course is listed, in order, with all of its tees |
| Courses.FilteredListsOnlyMatchingTees | backend/app/api/v1/core/course_endpoints/courses.py:95-101 | with a tee filter every listed course has a tee, and every listed tee has the requested name |
| Courses.DroppedIffNoMatchingTee | backend/app/api/v1/core/course_endpoints/courses.py:95-99 | with a tee filter a course is dropped iff none of its tees has that name |
| UserDb.AllUsers | backend/app/api/v1/core/user_endpoints/user_db.py:32-40 | None iff the user table is empty, else all users |
| UserDb.DeleteUser | backend/app/api/v1/core/user_endpoints/user_db.py:43-52 | false and no change for an unknown id; else the user and that user's clubs are gone and everyone else's stay |
| UserDb.NewClubs | backend/app/api/v1/core/user_endpoints/user_db.py:60-72 | one club per input, in order, owned by the user, with consecutive fresh ids |
| UserDb.BuildClubs | backend/app/api/v1/core/user_endpoints/user_db.py:62-70 | the loop yields NewClubs: one club per input in input order, with the input's name, distance and preference, the user's id and consecutive ids from the next free one |
| UserDb.AddMultipleClubs | backend/app/api/v1/core/user_endpoints/user_db.py:55-76 | nothing for an unknown user; else the new clubs are appended |
| UserDb.AddedClubsListed | backend/app/api/v1/core/user_endpoints/user_db.py:55-88 | after adding, the user's club listing gains exactly the new clubs at the end; other users' listings are unchanged |
| UserDb.ClubsOf | backend/app/api/v1/core/user_endpoints/user_db.py:85 | the clubs whose user id matches: each such club as many times as the table holds it, every other club not at all |
| UserDb.GetUserClubs | backend/app/api/v1/core/user_endpoints/user_db.py:79-88 | None iff the user is unknown; else ClubsOf the user: every club the user owns, each as often as in the table, and no other |
| UserDb.FindClub | backend/app/api/v1/core/user_endpoints/user_db.py:93-97 | finds a club with that name owned by that user, and None iff there is none |
| UserDb.Updated | backend/app/api/v1/core/user_endpoints/user_db.py:106-107 | every data field is overwritten, omitted ones with None; id and owner are kept |
| UserDb.UpdateClub | backend/app/api/v1/core/user_endpoints/user_db.py:91-112 | None and no change when the user has no such club; else only that club is overwritten |
| UserDb.DeleteClub | backend/app/api/v1/core/user_endpoints/user_db.py:115-133 | false and no change when not found; else exactly that one club is removed |
| UserDb.DeleteClubScope | backend/app/api/v1/core/user_endpoints/user_db.py:115-133 | deleting a club leaves every other user's listing unchanged and shortens the owner's by one |
| UserEndpoints.SearchUsers | backend/app/api/v1/core/user_endpoints/users.py:63-71 | 404 "No users found" iff there are no users, else the users |
| UserEndpoints.DeleteUserEndpoint | backend/app/api/v1/core/user_endpoints/users.py:73-81 | deleted iff the user existed, else 404 |
| UserEndpoints.ApplyProfile | backend/app/api/v1/core/user_endpoints/users.py:87-98 | only names that are set and not "" are written; every other field is kept |
| UserEndpoints.ApplyAdmin | backend/app/api/v1/core/user_endpoints/users.py:100-118 | set fields other than "" are written, the admin flag included; the rest is kept |
| UserEndpoints.ProfileUpdateIdempotent | backend/app/api/v1/core/user_endpoints/users.py:94-96 | applying the same profile or admin update twice is the same as once |
| UserEndpoints.UpdateUserProfile | backend/app/api/v1/core/user_endpoints/users.py:87-98 | only the requester's row changes, to the merged profile |
| UserEndpoints.UpdateAdminProfile | backend/app/api/v1/core/user_endpoints/users.py:100-118 | 401 and no change for a non-admin; else only the target's row changes, to the merge |
| UserEndpoints.PasswordProblem | backend/app/api/v1/core/user_endpoints/users.py:126-145 | no problem iff both passwords are given, the new one has 8 or more characters, the current one verifies and the new one does not |
| UserEndpoints.ShortPasswordRefusedBeforeVerification | backend/app/api/v1/core/user_endpoints/users.py:131-135 | a short new password is refused whatever verification would say |
| UserEndpoints.ChangePassword | backend/app/api/v1/core/user_endpoints/users.py:120-164 | 400 with the first failing guard and no change; else only the requester's password hash changes, to the hash of the new password |
| UserEndpoints.AddClubsEndpoint | backend/app/api/v1/core/user_endpoints/users.py:166-183 | 404 iff the user is unknown or no clubs were sent; else the clubs are added and counted in the message |
| UserEndpoints.ClubListing | backend/app/api/v1/core/user_endpoints/users.py:185-201 | 404 iff the user is unknown, else exactly the user's clubs (possibly none) |
| UserEndpoints.UpdateClubEndpoint | backend/app/api/v1/core/user_endpoints/users.py:203-218 | 404 iff the user has no such club; else the updated club |
| UserEndpoints.DeleteClubEndpoint | backend/app/api/v1/core/user_endpoints/users.py:220-237 | 404 iff the user has no such club; else it is removed |
| AgentAct.FindTool | backend/app/api/v1/core/react_agent/nodes.py:22-26 | the index of the first tool with that name, and -1 iff there is none |
| AgentAct.LooksLikeDictIsBraces | backend/app/api/v1/core/react_agent/nodes.py:41 | the brace test amounts to "starts with { and ends with }" |
| AgentAct.AsDict | backend/app/api/v1/core/react_agent/nodes.py:45-48 | accepted iff the parsed value is a dict, which is then forwarded |
| AgentAct.DictFromBraces | backend/app/api/v1/core/react_agent/nodes.py:42-60 | the literal parse wins; on its failure the quote-replaced JSON parse is used; failing both is an error |
| AgentAct.KeyRun | backend/app/api/v1/core/react_agent/nodes.py:68 | the longest prefix of letters and underscores |
| AgentAct.ValueRun | backend/app/api/v1/core/react_agent/nodes.py:68 | the longest comma-free prefix |
| AgentAct.MatchAt | backend/app/api/v1/core/react_agent/nodes.py:68-69 | a match has a non-empty key of key characters and a non-empty comma-free value |
| AgentAct.FindAll | backend/app/api/v1/core/react_agent/nodes.py:68-69 | every pair found has such a key and such a value |
| AgentAct.BuildParsed | backend/app/api/v1/core/react_agent/nodes.py:71-88 | the loop builds exactly the dictionary of stripped keys to coerced stripped values |
| AgentAct.ScannedKeys | backend/app/api/v1/core/react_agent/nodes.py:71-88 | the keys of the result are exactly the stripped keys found |
| AgentAct.LastDuplicateWins | backend/app/api/v1/core/react_agent/nodes.py:71-88 | for a repeated key, the last occurrence's coerced value is kept |
| AgentAct.NormalisedInput | backend/app/api/v1/core/react_agent/nodes.py:34-107 | a dict is forwarded unchanged; a non-string non-dict is wrapped as {"value": input}; only a brace string can fail |
| AgentAct.Normalise | backend/app/api/v1/core/react_agent/nodes.py:29-107 | the step-by-step filling of the structured input computes NormalisedInput |
| AgentAct.ActNode | backend/app/api/v1/core/react_agent/nodes.py:14-117 | an unknown tool gives "Tool '<name>' not found"; a normalisation error is the step; otherwise an Invoke step for the first tool of that name with the normalised input |
| AgentAct.Coerce | backend/app/api/v1/core/react_agent/nodes.py:76-88 | a boolean iff the value is "true" or "false" in any case; a decimal iff it has exactly one dot and is otherwise non-empty digits, with the value of that numeral (float() rejects more dots, which leaves the string); an integer iff it is all digits, with its value; anything else stays the string |
| AgentAct.PlainStringIsWrapped | backend/app/api/v1/core/react_agent/nodes.py:99-101 | a string that is not a brace string and lacks "=" or "," is wrapped as {"value": s} |
| AgentAct.CoerceNumeral | backend/app/api/v1/core/react_agent/nodes.py:83-84 | a printed natural number is coerced back to that integer |
| AgentAct.CoerceBoolean | backend/app/api/v1/core/react_agent/nodes.py:77-80 | a value becomes a boolean iff it is "true" or "false" in any case, with the matching truth value |
| AgentAct.MultipleDotsStayString | backend/app/api/v1/core/react_agent/nodes.py:81-86 | a value with two or more dots is never a number |
| AgentAct.ScanRendered | backend/app/api/v1/core/react_agent/nodes.py:68-69 | rendering well-formed pairs as k=v,k=v and scanning gives the pairs back |
| AgentAct.RenderedPairsReachTool | backend/app/api/v1/core/react_agent/nodes.py:63-92 | two or more rendered pairs reach the tool as the dictionary of those pairs |
| ShotTools.ClassifyWind | backend/app/api/v1/core/react_agent/agent_reason_runnable.py:72-82 | each of the four lower-cased labels maps to its wind type, and nothing else is accepted |
| ShotTools.CalculateWindEffect | backend/app/api/v1/core/react_agent/agent_reason_runnable.py:59-115 | an error iff the direction is unknown; else the distance, speed and wind type are reported |
| ShotTools.KnownDirections | backend/app/api/v1/core/react_agent/agent_reason_runnable.py:75-80 | the four documented directions are accepted |
| ShotTools.HeadAndTailWind | backend/app/api/v1/core/react_agent/agent_reason_runnable.py:85-105 | headwind adds distance x 0.006 x speed and tailwind subtracts distance x 0.004 x speed, with no lateral drift |
| ShotTools.CrosswindSidesAgree | backend/app/api/v1/core/react_agent/agent_reason_runnable.py:79-102 | both crosswinds give the same report: drift 0.9 x speed, adjustment distance x 0.006 x speed x 0.2 |
| ShotTools.WindDirectionCaseInsensitive | backend/app/api/v1/core/react_agent/agent_reason_runnable.py:72 | the report does not depend on the letter case of the direction |
| ShotTools.WindDirectionOfAdjustment | backend/app/api/v1/core/react_agent/agent_reason_runnable.py:92-105 | a headwind never shortens and a tailwind never lengthens the distance to play |
| ShotTools.BaseDistance | backend/app/api/v1/core/react_agent/agent_reason_runnable.py:143-147 | a base distance is accepted only when present, numeric and positive |
| ShotTools.ActiveFactorsFromTable | backend/app/api/v1/core/react_agent/agent_reason_runnable.py:213-239 | every active factor is an entry of the table whose flag is set |
| ShotTools.NetFactor | backend/app/api/v1/core/react_agent/agent_reason_runnable.py:226-239 | the combined distance factor is in (0, 1] |
| ShotTools.ChooseSurface | backend/app/api/v1/core/react_agent/agent_reason_runnable.py:213-223 | two flagged surfaces give an error naming the first two in table order; none gives fairway; one gives that surface |
| ShotTools.ApplySlopes | backend/app/api/v1/core/react_agent/agent_reason_runnable.py:226-239 | the loop multiplies the surface factor by every flagged slope factor and lists their names in order |
| ShotTools.CalculateLieEffect | backend/app/api/v1/core/react_agent/agent_reason_runnable.py:117-261 | an error for a bad base distance or two surfaces; else the required club distance is base / combined factor |
| ShotTools.ProductBounds | backend/app/api/v1/core/react_agent/agent_reason_runnable.py:226-239 | a product of factors in (0, 1] is in (0, 1], and is 1 iff every factor is 1 |
| ShotTools.LieFactorsInRange | backend/app/api/v1/core/react_agent/agent_reason_runnable.py:150-205 | every surface and slope factor in the tables is in (0, 1] |
| ShotTools.RequiredAtLeastBase | backend/app/api/v1/core/react_agent/agent_reason_runnable.py:242-245 | the required club distance is at least the base, and equal iff fairway with no slope |
| ShotTools.Advice | backend/app/api/v1/core/react_agent/agent_reason_runnable.py:339-350 | longer-club advice iff the adjustment is positive, shorter iff negative, normal club otherwise |
| ShotTools.GroundEffectOf | backend/app/api/v1/core/react_agent/agent_reason_runnable.py:318-365 | an unknown condition gives an error with the valid options; else carry = 0.8 base, roll = 0.2 base x the condition's roll factor, total = carry + roll (each rounded to a tenth), with the condition's roll adjustment text and club advice |
| ShotTools.CalculateGroundEffect | backend/app/api/v1/core/react_agent/agent_reason_runnable.py:263-365 | a bad base distance is an error first; an unknown condition is then the error listing the options; a success reports that base with the carry, roll, total, roll adjustment text and advice of the condition's table entry |
| ShotTools.GroundConditionsCompared | backend/app/api/v1/core/react_agent/agent_reason_runnable.py:284-350 | wet ground plays shorter with a half-club longer, firm longer with a half-club shorter, normal unchanged |
| ShotTools.GroundConditionAccepted | backend/app/api/v1/core/react_agent/agent_reason_runnable.py:276-322 | with a valid base, the ground tool succeeds iff the lower-cased condition is wet, firm or normal |
| RoundClient.ResumeHole | frontend/store/roundStore.js:83-94 | the number of the first hole with 0 shots, else the round's hole count |
| RoundClient.ResumeHoleInRange | frontend/store/roundStore.js:83-94 | with hole numbers within the round, the resumed hole is a hole of the round |
| RoundClient.ReplaceHoles | frontend/store/roundStore.js:131-138 | only the holes with the given number are replaced; all others are unchanged |
| RoundClient.ShotsWithReplaced | frontend/store/roundStore.js:139-147 | the totals computed with the new shots and par equal the sums over the updated holes |
| RoundClient.SavedScoreKeepsTotalsConsistent | frontend/store/roundStore.js:139-156 | after a saved score, the round's totals are the sums of its holes and relative = shots - par |
| RoundClient.ShotsWithOneHole | frontend/store/roundStore.js:139-142 | with one hole of that number, the new total is the old one minus its shots plus the new shots |
| RoundClient.ShotsWithNone | frontend/store/roundStore.js:139-142 | with no hole of that number, the total is unchanged |
| RoundClient.RoundStore.constructor | frontend/store/roundStore.js:7-16 | no round, hole 1, empty history, no error, nothing selected |
| RoundClient.RoundStore.StartRound | frontend/store/roundStore.js:19-63 | refused without a selected course and tee; on success the round is in play at hole 1 and both selections are cleared; the cursor stays in range |
| RoundClient.RoundStore.GetActiveRound | frontend/store/roundStore.js:65-101 | a found round is in play at its resume hole; no round resets the cursor to 1 |
| RoundClient.RoundStore.UpdateHoleScore | frontend/store/roundStore.js:103-163 | "No active round" without a round; on success only the matching hole is replaced and the totals are recomputed |
| RoundClient.RoundStore.NextHole | frontend/store/roundStore.js:165-170 | moves forward only with a round and below its hole count; keeps the cursor in range |
| RoundClient.RoundStore.PreviousHole | frontend/store/roundStore.js:172-177 | moves back only above hole 1; keeps the cursor in range |
| RoundClient.RoundStore.SetCurrentHole | frontend/store/roundStore.js:179-184 | jumps only to a hole of the round in play, else no change; keeps the cursor in range |
| RoundClient.RoundStore.CompleteRound | frontend/store/roundStore.js:186-222 | refused without a round; on success the round is taken out of play |
| RoundClient.RoundStore.GetRoundHistory | frontend/store/roundStore.js:224-248 | on success the history is the server's list |
| RoundClient.RoundStore.GetRoundDetails | frontend/store/roundStore.js:250-269 | returns the server's round without touching the store; a refusal sets the error |
| RoundClient.RoundStore.DeleteRound | frontend/store/roundStore.js:271-297 | on success the history loses exactly the entries with that id, the rest in order |
| RoundClient.RoundStore.ClearError | frontend/store/roundStore.js:333 | the error is cleared |
| RoundClient.RoundStore.CurrentHoleData | frontend/store/roundStore.js:300-305 | the first hole of the round in play with the cursor's number, and None iff there is none |
| RoundClient.RoundStore.CurrentHoleShots | frontend/store/roundStore.js:307-310 | the shots of the first hole of the round in play with the cursor's number, and 0 without a round or without such a hole |
| RoundClient.RoundStore.CurrentHolePar | frontend/store/roundStore.js:312-315 | the par of the first hole of the round in play with the cursor's number, and 4 without a round or without such a hole |
| RoundClient.RoundStore.Totals | frontend/store/roundStore.js:317-330 | the round's shots, par and relative score as stored, or zeros without a round |
| RoundClient.RoundStore.SetSelectedCourse | frontend/store/roundStore.js:376-378 | selecting a course clears the selected tee |
| RoundClient.RoundStore.SetSelectedTee | frontend/store/roundStore.js:380-382 | the tee is selected |
| RoundClient.RoundStore.Reset | frontend/store/roundStore.js:336-347 | back to no round, hole 1, no error, nothing selected; the history is kept |
| RoundClient.DeleteLeavesOtherRounds | frontend/store/roundStore.js:288-290 | every other history entry stays, as often as before, and none with that id |
| Registration.Merge | frontend/store/registrationStore.js:22-48 | the given keys are overwritten, every other key is kept |
| Registration.RemoveAt | frontend/store/registrationStore.js:36-38 | an in-range index drops that entry and keeps the rest in order; any other index changes nothing |
| Registration.SetField | frontend/store/registrationStore.js:40-44 | only the given field of the given entry changes |
| Registration.AddThenRemove | frontend/store/registrationStore.js:28-38 | removing the club just added restores the list |
| Registration.RegistrationStore.constructor | frontend/store/registrationStore.js:4-18 | step 1, empty user data, one empty club, initial handicap 54.0 |
| Registration.RegistrationStore.SetStep | frontend/store/registrationStore.js:20 | the step is set |
| Registration.RegistrationStore.SetUserData | frontend/store/registrationStore.js:22-24 | the user data is merged with the given keys |
| Registration.RegistrationStore.SetClubsData | frontend/store/registrationStore.js:26 | the club list is replaced wholesale |
| Registration.RegistrationStore.AddClub | frontend/store/registrationStore.js:28-34 | exactly one empty club is appended |
| Registration.RegistrationStore.RemoveClub | frontend/store/registrationStore.js:36-38 | the club list loses the entry at that index, if any |
| Registration.RegistrationStore.UpdateClub | frontend/store/registrationStore.js:40-44 | only the given field of the given club changes |
| Registration.RegistrationStore.SetHandicapData | frontend/store/registrationStore.js:46-48 | the handicap data is merged with the given keys |
| Registration.RegistrationStore.ResetRegistration | frontend/store/registrationStore.js:50-66 | exactly the initial state again |
| Formatters.FormatHandicapIndex | frontend/app/utils/formatters.js:1-7 | null stays null; the text never starts with "-", and starts with "+" iff the handicap is negative |
| Formatters.ReadFormatted | frontend/app/utils/formatters.js:6 | reading the display back gives the handicap: the formatting loses nothing |

## Left out

- Python's `round(x, 1)` rounds binary doubles half to even. `Numeric.RoundTenth` rounds exact reals half up. Only its error bound and monotonicity are used, so a tie can round differently.
- Courses.ConvertToMeters: an exact half metre rounds up here, while Python's `round` rounds it to even.
- Distances and factors are exact reals, not binary floating point.
- The explanation strings, the dispersion factors and the lie descriptions are not modelled. The tools return only numbers and labels.
- Lower-casing and `strip()` are modelled on ASCII only. There is no Unicode case mapping or Unicode whitespace.
- AgentAct.Coerce: a dotted numeral becomes its exact decimal value, not a double. The digit tests accept only the ASCII digits 0-9. Python's `isdigit()`, `int()` and `float()` also accept other Unicode decimal digits (Arabic-Indic digits, for example). Such a value is a number in the source but stays a string here.
- `ast.literal_eval` and `json.loads` are function parameters, not Python grammars.
- AgentAct.ActNode: the model stops at the Invoke step, before `tool_function.invoke`. The tool's output, its `str()` and the "Error invoking tool" path (nodes.py:113-114) are not modelled.
- ShotTools.GroundCondition: requires the `ground_condition` entry, when present, to be a string. The source would raise on `.lower()` of another type.
- ShotTools.CalculateGroundEffect: carries the same requirement as `GroundCondition`, for the same reason.
- The course search query (`ilike` on name and location) is not modelled. `ListCourses` starts from the courses the query returned.
- The SQL order of rows with equal start or end times is not modelled. Ties may come out in any order.
- Request validation (the 422 bodies FastAPI builds from the schemas) is not modelled, apart from the limit and offset range check in `HistoryPage`.
- Database NOT NULL constraints are not modelled. An update that writes None is accepted as the ORM would send it.
- Deleting a user removes that user's clubs (a cascading foreign key) but not their rounds. The rounds tables are not part of the schema file.
- UserEndpoints.UpdateAdminProfile: a missing target user is a 500 here. The source fails inside the handler, and its error text is not modelled.
- Timestamps in success messages are not modelled. Update times come from the `now` parameter.
- GolfDb.Db.Valid: assumes every tee's men's slope rating is non-zero. With a zero slope the source raises ZeroDivisionError when it computes a differential; that failure is not modelled. A negative slope is accepted and scales the differential as in the source.
- Handicap.UpdateUserHandicap and CourseRounds.CompleteRound require the user's row to exist. The requester is always an authenticated existing user, and the source would fail otherwise.
- Hashing and verifying passwords are function parameters, not bcrypt.
- The client's network calls are left out. Each store action takes the server's reply as a parameter, and only the state changes after the reply are modelled.
- The client's `searchCourses` and its `availableCourses` list are not modelled. The search is a network call with no logic of its own.
- The client's `targetPosition` and `distance` fields are not modelled. Nothing in these stores reads them.
- Registration.RegistrationStore.UpdateClub: requires the index to be at most the list length. Beyond that, JavaScript would leave holes in the array.
- Registration.SetField: carries the same index requirement as `RegistrationStore.UpdateClub`, for the same reason.
- Formatters.FormatHandicapIndex takes the handicap in tenths, as an integer. JavaScript's rendering of other numbers is not modelled.
- Geodesic distance, bearing and wind-angle classification are not modelled. They are not present in this source; the wind tool takes an already classified label.
- The language model wiring is not modelled: the prompt, the runnable, `reason_node`, and the `get_user_clubs` tool's session handling.
- The configured-holes `start_round` sets the round's relative score to 0 while the hole rows start at -par. This is modelled as written.
- The hard cap applies when the raw increase exceeds 5.0. An increase of exactly 5.0 is only soft-capped to +4.0. This is modelled as written (`CapBoundaries`, `HardCapAnyRise`).
