# Volink matching core in Dafny

Volink matches volunteers to volunteering opportunities. This project models its core:

- the recommendation engine (`volunteers/matching.py`): four compatibility sub-scores, their weighted sum plus a workload bonus, and the ranked list of open opportunities a volunteer is offered;
- the capacity ledger (`volunteers/scheduling.py`): committed weekly hours, the admission test for a new commitment, and the volunteer's schedule;
- the opportunity and application records (`opportunities/models.py`): their choices and defaults, the date check `clean`, the validation gate in `save`, and the one-application-per-pair rule;
- notifications (`notifications/models.py`): the type choices, the display string, and `mark_as_read`.

Modules, one per file:

| module | file | models |
|---|---|---|
| `Wrappers` | `wrappers.dfy` | `Option` and `Result` |
| `Text` | `text.dfy` | the Python string operations the engine uses: `lower`, `strip`, `split(',')`, substring `in` |
| `Opportunities` | `opportunities.dfy` | `opportunities/models.py` |
| `Scheduling` | `scheduling.dfy` | `volunteers/scheduling.py`, plus the volunteer profile record |
| `Ranking` | `ranking.dfy` | `list.sort(key=score, reverse=True)` and the slice `[:limit]` |
| `Matching` | `matching.dfy` | `volunteers/matching.py` |
| `Notifications` | `notifications.dfy` | `notifications/models.py`, as a class |

The form of each part follows the source:

- The loops of the source are methods with loop invariants, each proved equal to a specification function:
  - `CalculateSkillsOverlap`, with its counting loop in `CountMatchedSkills`, and `CheckInterestsMatch`;
  - `GetRecommendedOpportunities`, with the per-candidate loop body in `ScoreOpportunity`;
  - `GetVolunteerSchedule`.
- The pure conditionals are functions.
- The notification, whose `read_at` field `mark_as_read` updates in place, is a class with a `modifies` frame.
- Database queries become input sequences, in the order the database returns them (newest first).
- The clock (`timezone.now()`) becomes a `today`/`now` parameter.

Four facts about the code shape what the model states:

- `remaining_capacity` is `max_hours - total_hours` with no clamping, so it can be negative (`volunteers/scheduling.py:97`).
- The engine itself keeps only `status == 'OPEN'` opportunities (`volunteers/matching.py:130`).
- The ledger is consulted with the volunteer's own profile (`volunteers/matching.py:163-166`). Admission is therefore exactly the test of the bonus condition, so the 5.0 partial-fit bonus can never be awarded (`Matching.PartialFitUnreachable`). Every recommended score is 40·skills + 20·interests + 20·availability + 10·location + 10, which lies in [15, 100].
- Without a profile, `check_hours_limit` admits every candidate with 0 committed hours (`Scheduling.NoProfileAdmitsAll`). The recommendation engine never reaches that branch.

The test suite's examples are stated as lemmas. The scheduling ones are instantiated for any profile with a 10-hour maximum, and the skills and interests ones on the test strings themselves:

- 'Python, JavaScript' against itself scores 1.0;
- 'Python, JavaScript' against 'Python, C++' scores 0.5;
- 'Python' against 'Cooking, Gardening' scores 0.0;
- 'Education, Technology' matches EDUCATION and 'Sports' does not.

## Model

| member | source | states |
|---|---|---|
| Text.Lower | volunteers/matching.py:22-26 | `lower` keeps the length and lower-cases each character |
| Text.LowerIdempotent | volunteers/matching.py:49-50 | lower-casing twice is lower-casing once |
| Text.IsSpace | volunteers/matching.py:22-23 | the characters `str.strip()` removes (Python's `isspace`) |
| Text.Strip | volunteers/matching.py:22-23 | `strip` leaves text with no whitespace at either end, found in the original after the leading blanks, with only whitespace of the original before and after it |
| Text.StripUnique | volunteers/matching.py:22-23 | those properties determine the result: any text that has them is `Strip(s)` |
| Text.StripOneBlank | volunteers/matching.py:22-23 | one leading blank before otherwise unpadded text is exactly what `strip` removes |
| Text.SplitComma | volunteers/matching.py:22-23 | `split(',')` yields at least one piece, none holding a comma, the first a prefix of the text |
| Text.SplitJoin | volunteers/matching.py:22-23 | joining the pieces with commas restores the text (split loses nothing) |
| Text.SplitAtFirstComma | volunteers/matching.py:22-23 | the text before the first comma is the first piece and the rest is split on |
| Text.SplitPieceOffset | volunteers/matching.py:22-23 | every piece of the split occurs in the text |
| Text.Contains | volunteers/matching.py:34 | `needle in haystack` as a search from each position; its meaning is stated by `ContainsFromOccurrence` and `OccurrenceFromContains` |
| Text.EmptyIsContained | volunteers/matching.py:34 | Python's `'' in s` always holds |
| Text.OccurrenceFromContains | volunteers/matching.py:34 | a successful `in` test has an occurrence as its witness |
| Text.MissingCharNotContained | volunteers/matching.py:34 | a needle with a character the haystack lacks is not in it |
| Text.LongerNotContained | volunteers/matching.py:34 | a needle longer than the haystack is not in it |
| Matching.SkillTokens | volunteers/matching.py:22-23 | as many tokens as comma pieces, so at least one (their contents: `NormalizedPieceAt`) |
| Matching.NormalizedPieceAt | volunteers/matching.py:22-23 | the k-th token is the k-th comma piece, stripped and lower-cased |
| Matching.SkillsOverlap | volunteers/matching.py:13-38 | the skills score lies in [0, 1] |
| Matching.CalculateSkillsOverlap | volunteers/matching.py:13-38 | the counting loop returns exactly the specified skills score |
| Matching.CountMatchedSkills | volunteers/matching.py:30-35 | the `matches += 1` loop returns exactly the number of matched required tokens |
| Matching.MatchCountExtremes | volunteers/matching.py:30-35 | the count equals the number of tokens iff all are matched, and is 0 iff none is |
| Matching.SkillsOverlapRange | volunteers/matching.py:18-38 | the score is 0.0 when either text is empty, otherwise matched/total (the `min` never clips) |
| Matching.TokenMatchIsSubstringMatch | volunteers/matching.py:33-35 | the exact-token test adds nothing: a token is matched iff it occurs in the lower-cased volunteer text |
| Matching.SkillsOverlapFull | volunteers/matching.py:13-38 | the score is 1.0 iff both texts are given and every required token occurs in the volunteer text |
| Matching.SkillsOverlapZero | volunteers/matching.py:13-38 | the score is 0.0 iff a text is empty or no required token occurs |
| Matching.SkillsOverlapPartial | volunteers/matching.py:13-38 | the score is strictly between 0 and 1 iff some required tokens occur and some do not |
| Matching.SelfOverlapIsOne | volunteers/matching.py:13-38 | a non-empty skill text scores 1.0 against itself |
| Matching.TwoEntryOverlap | volunteers/matching.py:13-38 | against two required entries the score is the number found, halved |
| Matching.TrailingCommaCountsAsMatch | volunteers/matching.py:22-35 | a trailing comma after one entry adds an empty token that always matches: such a text scores 1.0 or 0.5, never less |
| Matching.ExactSkillsScenario | tests/test_matching.py:54-57 | 'Python, JavaScript' against itself scores 1.0 |
| Matching.PartialSkillsScenario | tests/test_matching.py:59-63 | 'Python, JavaScript' against 'Python, C++' scores 0.5 |
| Matching.NoMatchSkillsScenario | tests/test_matching.py:65-68 | 'Python' against 'Cooking, Gardening' scores 0.0 |
| Matching.InterestsMatch | volunteers/matching.py:41-73 | the interest score is 0.0 or 1.0, and 0.0 for empty interests |
| Matching.CheckInterestsMatch | volunteers/matching.py:41-73 | the search loop with early return gives exactly the specified interest score |
| Matching.InterestsMatchCaseInsensitive | volunteers/matching.py:49-50 | the interest score ignores letter case in interests and category |
| Matching.OtherMatchesOnlyByName | volunteers/matching.py:57-68 | OTHER has no keywords, so it matches iff the interests mention "other" |
| Matching.InterestsByNameExample | tests/test_matching.py:70-73 | 'Education, Technology' matches EDUCATION |
| Matching.InterestsNoMatchExample | tests/test_matching.py:75-78 | 'Sports' does not match EDUCATION, by name or keyword |
| Matching.AvailabilityOverlap | volunteers/matching.py:76-97 | the availability score is 0.0, 0.5 or 1.0 |
| Matching.AvailabilityCases | volunteers/matching.py:76-97 | 0.5 iff no availability; 0.0 iff it started and ended before today; otherwise 1.0. For a stored opportunity, 1.0 iff availability is given and it has not ended |
| Matching.LocationPreference | volunteers/matching.py:100-115 | the location score is 0.5 or 1.0 |
| Matching.LocationCases | volunteers/matching.py:100-115 | 1.0 iff availability is declared and the opportunity is remote |
| Matching.CompatibilityScore | volunteers/matching.py:135-160 | the weighted sum of the sub-scores lies in [5, 90] |
| Matching.WorkloadBonus | volunteers/matching.py:171-175 | the bonus is 10.0 or 5.0 |
| Matching.PartialFitUnreachable | volunteers/matching.py:163-175 | an admitted candidate always gets the 10.0 bonus |
| Matching.OpenOpportunities | volunteers/matching.py:130 | exactly the OPEN opportunities are kept |
| Matching.OpenOpportunitiesConcat | volunteers/matching.py:130 | the filter keeps the given order: filtering a concatenation filters each part |
| Matching.ScoreCandidateExact | volunteers/matching.py:134-177 | a candidate is skipped iff the ledger refuses it, and otherwise scored with the sub-scores plus 10.0 |
| Matching.KeptMembership | volunteers/matching.py:167-177 | an entry is collected iff the loop body produced it |
| Matching.ScoredCandidatesSound | volunteers/matching.py:134-177 | every collected entry is an admitted candidate with the sub-scores plus 10.0 |
| Matching.ScoredCandidatesComplete | volunteers/matching.py:134-177 | every admitted candidate is collected |
| Matching.ScoreOpportunity | volunteers/matching.py:135-175 | the loop body's sums yield exactly the candidate's outcome |
| Matching.Recommend | volunteers/matching.py:118-182 | at most `limit` recommendations (for a non-negative limit), and never more than there are opportunities |
| Matching.GetRecommendedOpportunities | volunteers/matching.py:118-182 | the loop, the sort and the cut yield exactly the specified recommendation list |
| Matching.RecommendationsSound | volunteers/matching.py:130-182 | each recommendation is an OPEN, admitted opportunity scored sub-scores + 10, in [15, 100] |
| Matching.RecommendationsRanked | volunteers/matching.py:180-182 | for a non-negative limit, `limit` entries or every admitted candidate when there are fewer; non-increasing scores; for each score the first entries of that score in candidate order |
| Matching.RecommendationsAreBest | volunteers/matching.py:179-182 | the cut keeps the best: no admitted candidate left out scores above one recommended |
| Matching.RecommendationsComplete | volunteers/matching.py:130-182 | with a limit of at least the number of opportunities, every admitted OPEN opportunity is recommended |
| Matching.SoleOpenOpportunityRecommendedFirst | tests/test_matching.py:97-115 | a sole admitted OPEN opportunity is the first recommendation |
| Ranking.InsertSorted | volunteers/matching.py:180 | inserting into a score-sorted list keeps it sorted |
| Ranking.InsertWithScore | volunteers/matching.py:180 | insertion appends the entry after the others of its score and leaves other scores alone |
| Ranking.SortByScore | volunteers/matching.py:180 | the sort keeps the length; its properties are stated by `SortByScoreCorrect` |
| Ranking.SortByScoreCorrect | volunteers/matching.py:180 | the sort orders by non-increasing score, keeps the order of equal scores, and is a permutation |
| Ranking.SameScoresSameMultiset | volunteers/matching.py:180 | lists agreeing on the entries of every score hold the same entries |
| Ranking.StableSortUnique | volunteers/matching.py:180 | a stable descending sort has only one possible result |
| Ranking.SortedPrefixIsBest | volunteers/matching.py:180-182 | a prefix of a score-sorted list holds its best entries |
| Ranking.Truncate | volunteers/matching.py:182 | `[:limit]` is a prefix of length `min(limit, n)`, or `n + limit` clipped at 0 for a negative limit |
| Scheduling.NewProfile | volunteers/models.py:19-30 | a new profile has no availability and a 10-hour maximum |
| Scheduling.AcceptedApplications | volunteers/scheduling.py:30-33 | exactly the volunteer's ACCEPTED applications |
| Scheduling.CurrentHours | volunteers/scheduling.py:36-39 | committed hours, the sum over the volunteer's ACCEPTED applications; stated by the lemmas below |
| Scheduling.CurrentHoursConcat | volunteers/scheduling.py:36-39 | committed hours add up over a split of the application table |
| Scheduling.InsertApplication | volunteers/scheduling.py:30-39 | one more application changes the hours by its hours if it is the volunteer's and ACCEPTED, otherwise not at all |
| Scheduling.UpdateStatus | volunteers/scheduling.py:30-39 | changing one application's status moves the hours by the change in its contribution |
| Scheduling.CurrentHoursNonNegative | volunteers/scheduling.py:36-39 | with non-negative opportunity hours the committed hours are non-negative |
| Scheduling.CurrentHoursMonotone | volunteers/scheduling.py:36-39 | more applications never lower the committed hours |
| Scheduling.CheckHoursLimit | volunteers/scheduling.py:8-47 | would-be hours are always current hours plus the candidate's hours |
| Scheduling.NoProfileAdmitsAll | volunteers/scheduling.py:21-25 | without a profile: (True, 0, candidate hours), whatever the applications |
| Scheduling.AdmissionFitsCapacity | volunteers/scheduling.py:27-47 | with a profile, admitted iff the candidate's hours fit in maximum minus committed hours |
| Scheduling.NonAcceptedDoNotCount | volunteers/scheduling.py:30-39 | inserting a non-ACCEPTED or other volunteer's application leaves the verdict unchanged |
| Scheduling.RejectionIsStable | volunteers/scheduling.py:36-45 | a refused candidate stays refused as commitments are added |
| Scheduling.GetVolunteerSchedule | volunteers/scheduling.py:50-98 | an empty schedule without a profile; otherwise one entry per ACCEPTED application, the total equal to the ledger's committed hours, and unclamped remaining capacity that decides admission |
| Scheduling.ScenarioWithinLimit | tests/test_scheduling.py:46-67 | maximum 10, nothing committed, 5-hour candidate: (True, 0, 5) |
| Scheduling.ScenarioExceedsLimit | tests/test_scheduling.py:69-89 | maximum 10, 15-hour candidate: refused |
| Scheduling.ScenarioWithAcceptedCommitment | tests/test_scheduling.py:91-132 | maximum 10, 6 hours accepted, 5-hour candidate: (False, 6, 11) |
| Opportunities.CategoryCodeRoundTrip | opportunities/models.py:10-20 | each of the nine categories round-trips through its stored code |
| Opportunities.StatusCodeRoundTrip | opportunities/models.py:22-25 | OPEN and CLOSED round-trip through their codes |
| Opportunities.ApplicationStatusCodeRoundTrip | opportunities/models.py:94-99 | the four application statuses round-trip through their codes |
| Opportunities.Clean | opportunities/models.py:78-83 | `clean` reports at most one error, on the end date, for a reversed pair of dates |
| Opportunities.CleanDateOrder | opportunities/models.py:78-83 | with both dates present, `clean` passes iff start <= end |
| Opportunities.CleanIgnoresMissingDates | opportunities/models.py:81 | `clean` passes when a date is missing |
| Opportunities.Errors | opportunities/models.py:85-88 | no errors are reported iff every field check passes |
| Opportunities.MinHoursError | opportunities/models.py:39-42 | the weekly hours pass iff they lie between 0 (the field's `MinValueValidator(0)`) and 2147483647 (the largest value of the integer column, which Django checks on every `IntegerField`) |
| Opportunities.CleanFieldsPass | opportunities/models.py:27-60 | the per-field checks report nothing iff title, description, location, category, skills, hours (0 to 2147483647), dates, status and organisation are all acceptable |
| Opportunities.Save | opportunities/models.py:85-88 | `save` runs `full_clean` and stores the record only when it reports nothing; stated by `SaveGate` |
| Opportunities.SaveGate | opportunities/models.py:27-88 | `save` stores exactly the drafts whose title, description, location, category, skills, hours, dates, status and organisation pass `full_clean` (hours between 0 and 2147483647 included); a refusal carries errors; a stored record keeps the draft's values and satisfies every field check, start <= end included |
| Opportunities.DefaultsOnSave | opportunities/models.py:30-54 | the field defaults (category `OTHER` at line 33, not remote at line 46, status `OPEN` at line 52): an opportunity given only the required fields is stored OPEN, category OTHER, not remote |
| Opportunities.CreateApplication | opportunities/models.py:122-124 | a second application for the same (volunteer, opportunity) pair is refused; otherwise the new row goes first, keeping the table newest first as `-created_at` orders it |
| Opportunities.CreateKeepsPairsUnique | opportunities/models.py:124 | accepted insertions keep at most one application per pair |
| Opportunities.SecondApplicationRefused | opportunities/models.py:124 | applying twice to the same opportunity fails the second time |
| Notifications.TypeCodeRoundTrip | notifications/models.py:8-25 | both types round-trip through their codes, which fit the 20-character column |
| Notifications.Preview | notifications/models.py:38 | `message[:50]`: a prefix of at most 50 characters, the whole message when short |
| Notifications.Describe | notifications/models.py:37-38 | username, then " - ", then the message preview |
| Notifications.ShortMessageShownWhole | tests/test_models.py:106-114 | a short message is shown whole after the username |
| Notifications.ReadAfterMark | notifications/models.py:40-45 | after a mark the notification is read; an earlier read time is kept, otherwise it is `now` |
| Notifications.MarkIdempotent | notifications/models.py:43 | marking twice is marking once |
| Notifications.Notification.constructor | notifications/models.py:19-27 | a new notification is unread |
| Notifications.Notification.MarkAsRead | notifications/models.py:40-45 | sets the read time to `now` only if unset; afterwards the notification is read |
| Notifications.Notification.ToString | notifications/models.py:37-38 | the display string, at most username + 3 + 50 characters |

## Left out

- Views, forms, URL and admin configuration, accounts and organisations: request handling and configuration around the records modelled here.
- The database:
  - queries are input sequences, with the `-created_at` order taken as the given order;
  - the writes in `save` and `mark_as_read` are not modelled; `save` is modelled as the validation gate that decides whether a record is stored.
- `timezone.now()`: supplied by the caller as `today`/`now`. Dates and timestamps are integers.
- Participation records and their decimal hours: not part of this core.
- `created_at`/`updated_at` and the `__str__` of opportunities and applications: not used by the core's logic.
- Opportunities.SaveGate: `full_clean` also checks that the organisation exists in the database; the model checks only that one is given.
- Opportunities.MinHoursError: the upper bound of an `IntegerField` depends on the database backend. The model uses 2147483647, the signed 32-bit bound of PostgreSQL, MySQL and Oracle; a backend with 64-bit integer columns admits larger values.
- Text.Lower: lower-cases ASCII letters only. Python's `str.lower` also folds non-ASCII letters.
- Matching.CompatibilityScore: scores are exact reals. Python's floating-point rounding of the weighted sum is not modelled.
- Ranking.SortByScoreCorrect: `list.sort` (Timsort) is modelled by a stable insertion sort. `StableSortUnique` shows that any stable descending sort gives the same list, so the choice of algorithm does not matter. Sorting in place is not modelled.
- Scheduling.CheckHoursLimit: the source looks the profile up again through the volunteer. The model takes it as a parameter, which the recommendation engine fills with the profile it was given.
- Notifications.Notification: the recipient is modelled by its username, the only part of the user the core reads.
