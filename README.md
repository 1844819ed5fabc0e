# Adaptive prompt selection and reward economy — a Dafny model

This project models the core of a daily-journaling web application. The
core picks the reflection question a user is asked next. It scores and
comments on an answer with fixed rules. It keeps a day-based streak that
pays milestone tokens. It gates premium features behind a subscription or
a token price.

The model has one module per source file, plus three shared modules:

- `Base`: optional values, the integer clock (`Timestamp` is seconds; `Day(t)` is the UTC calendar day), `Max`/`Min`/`Clamp`.
- `Text`: Python's `lower()`, `str.split()` and `re.findall` on a character class. These are modelled as `Lower`, `Words` and `Runs`, the maximal runs of a character class. `Contains` is substring `in`.
- `Models`: the stored records. `User` and `Database` are classes whose fields the operations update. `Question`, `HistoryRecord` and `CategoryScore` are values. The history and the scores are maps keyed by their unique constraints.
- `StableSort`: a stable descending insertion sort, which models `sorted(..., reverse=True)`.
- `ProFeedbackEngine` (`pro_feedback_engine.py`): the feature tables, `is_pro`, the feature gate, the token debit and the streak rewards.
- `QuestionWeights` and `QuestionEngine` (`flask_app.py`): the category tables, `tokenize`, the affinity, need and mode weights, the personal level, the category order, the staged question search with its fallbacks, `update_after_answer` and `_extend_pro_until`.
- `FeedbackEngine` (`feedback_engine.py`): `analyze_answer`, `generate_feedback` and `evaluate_tokens`.
- `Prompts` (`prompts.py`): the prompt catalog and `get_question`.

Randomness is modelled as a choice the model cannot predict:

- `random.choice` and `ORDER BY RANDOM()` become a nondeterministic pick (`:|`).
- The jitter of `personal_level` is an index into `[-1, 0, 0, 1]`.

Several inputs become parameters:

- the current time;
- the bounds of the local day;
- the outcome of a database commit.

## Model

| member | source | states |
|---|---|---|
| `ProFeedbackEngine.PriceOf` | pro_feedback_engine.py:105-112 | `TOKEN_PRICES.get(feature, 0)`: a listed feature costs between 1 and 4 tokens, an unlisted one 0 |
| `ProFeedbackEngine.IsPro` | pro_feedback_engine.py:128-141 | a subscription that lower-cases to "pro" makes the user Pro; otherwise the user is Pro exactly when `pro_until` parses and is not before now |
| `ProFeedbackEngine.UnparseableCountsAsUnset` | pro_feedback_engine.py:133-138 | a `pro_until` that does not parse behaves like a missing one |
| `ProFeedbackEngine.ProWindowIsPrefix` | pro_feedback_engine.py:139-140 | a user who is Pro at some time was Pro at every earlier time |
| `ProFeedbackEngine.FeatureCost` | pro_feedback_engine.py:144-165 | the cost is never negative; a feature is refused exactly when it is pro-only and the user is not Pro, and a refusal costs 0; a positive cost is the table price of a feature that is not pro-only; a Pro user pays only for token-for-both features |
| `ProFeedbackEngine.FeatureCostForUser` | pro_feedback_engine.py:144-165 | a "pro" subscriber is always allowed and pays only for token-for-both features; a free user pays the table price for an included-in-Pro feature |
| `ProFeedbackEngine.ProNeverWorseOff` | pro_feedback_engine.py:144-165 | being Pro never makes a feature unavailable or dearer |
| `ProFeedbackEngine.FeatureTable` | pro_feedback_engine.py:95-122 | the decision for every listed feature, for Pro and free users; an unlisted feature is allowed at cost 0 |
| `ProFeedbackEngine.Charge` | pro_feedback_engine.py:168-190 | the call succeeds exactly when the feature is allowed and either free, or affordable with a successful commit; the balance is unchanged unless the debit succeeds, and then it drops by exactly the cost; a refusal keeps the balance |
| `ProFeedbackEngine.BalanceNeverNegative` | pro_feedback_engine.py:180-184 | a non-negative balance never becomes negative |
| `ProFeedbackEngine.ProOnlyRefusesFreeUser` | pro_feedback_engine.py:150-175 | a non-Pro user asking for `wedo` is refused with the pro-only reason, whatever the balance |
| `ProFeedbackEngine.TooFewTokensKeepsBalance` | pro_feedback_engine.py:180-182 | a balance of 1 against a price of 2 is refused with "too few tokens" and kept |
| `ProFeedbackEngine.RequireFeatureOrCharge` | pro_feedback_engine.py:168-190 | the result, the message and the user's new balance are those of `Charge` on the gate's decision |
| `ProFeedbackEngine.MilestoneBonus` | pro_feedback_engine.py:217-224 | the bonus is at most 3, and positive exactly on streak 3, 5 and 7 |
| `ProFeedbackEngine.AdvanceAsWritten` | pro_feedback_engine.py:204-227 | the streak update as the code runs it: the last reflection becomes now, tokens grow by at most 3, a streak in 0..6 stays in 0..6 |
| `ProFeedbackEngine.AsWrittenSameDay` | pro_feedback_engine.py:208-227 | as written, a second call on the same day pays the bonus of the streak again |
| `ProFeedbackEngine.AsWrittenRegrantsOnDayThree` | pro_feedback_engine.py:208-227 | an example of that: streak 2 from yesterday, two calls today, tokens 0 → 1 → 2 |
| `ProFeedbackEngine.Advance` | pro_feedback_engine.py:204-227 | the corrected streak update (see Findings): as above, and a same-day call changes neither streak nor tokens |
| `ProFeedbackEngine.StreakTransition` | pro_feedback_engine.py:208-224 | yesterday's streak grows by one (day 7 resets to 0); after a gap the streak restarts at 1 |
| `ProFeedbackEngine.NewDayAgrees` | pro_feedback_engine.py:208-227 | on a new day both versions agree and pay the milestone bonus of the new streak |
| `ProFeedbackEngine.SameDayIdempotent` | pro_feedback_engine.py:208-215 | with the correction, a second call on the same day only records the new time |
| `ProFeedbackEngine.ConsecutiveDays` | pro_feedback_engine.py:196-227 | after k consecutive days from a fresh start, the streak is k mod 7 and the tokens rose by 6 per full week plus the bonuses of the current week |
| `ProFeedbackEngine.WeekOfReflections` | pro_feedback_engine.py:199-202 | seven consecutive days pay 1 + 2 + 3 = 6 tokens and end at streak 0; day eight is streak 1 |
| `ProFeedbackEngine.UpdateStreakAndGrantTokens` | pro_feedback_engine.py:196-233 | after a successful commit, the user's streak, last reflection and tokens are the corrected update of the old ones; a failed commit leaves them unchanged and reports failure |
| `QuestionWeights.CatsDistinct` | flask_app.py:450 | the eight categories are distinct |
| `QuestionWeights.ModeWeightOf` | flask_app.py:451-454 | every mode weight is between 1 and 3; an unknown mode or category weighs 1 |
| `QuestionWeights.Tokenize` | flask_app.py:466-467 | every token is non-empty and made of `[a-zäöüß]` only |
| `QuestionWeights.TokenizeKeepsLetters` | flask_app.py:466-467 | the tokens, written one after the other, are exactly the `[a-zäöüß]` letters of the lower-cased text, in order |
| `QuestionWeights.TokensAreLowerCase` | flask_app.py:466-467 | lower-casing a token leaves it unchanged |
| `QuestionWeights.TokenizeNone` | flask_app.py:466-467 | a missing text and the empty text both give no tokens |
| `QuestionWeights.CountPresent` | flask_app.py:473-475 | the hit count never exceeds the number of trigger words |
| `QuestionWeights.CountPresentExtremes` | flask_app.py:473-475 | every trigger word counts when all are present; none counts when none is |
| `QuestionWeights.AffinityWeightBounds` | flask_app.py:469-476 | an affinity weight is odd and lies between 1 and 1 + 2 × the number of trigger words |
| `QuestionWeights.AddTriggerHits` | flask_app.py:473-475 | the inner loop adds 2 to one category for each of its trigger words among the tokens, and changes nothing else |
| `QuestionWeights.AddCategoryHits` | flask_app.py:472-475 | the outer loop adds the trigger hits of every category it visits, and leaves the other entries alone |
| `QuestionWeights.AffinityWeightsForUser` | flask_app.py:469-476 | the weights are keyed by exactly the categories, each 1 + 2 × the trigger words of that category in motive and chance |
| `QuestionWeights.NeedWeight` | flask_app.py:483 | need is at least 1, and at most 100 for a non-negative score |
| `QuestionWeights.NeedWeights` | flask_app.py:478-484 | the need weights are keyed by exactly the categories |
| `QuestionWeights.NeedWeightShape` | flask_app.py:478-484 | an unpractised category has need 100, score 100 has need 1, and a higher score never raises need |
| `QuestionWeights.BaseLevel` | flask_app.py:486-489 | the base level is between 1 and 5 |
| `QuestionWeights.PersonalLevel` | flask_app.py:486-490 | the level is between 1 and 5, within one of the base level for every jitter, and equal to it when the jitter is 0 |
| `QuestionWeights.BaseLevelMonotone` | flask_app.py:486-489 | more score never lowers the base level; below 100 each band of 20 points is one level |
| `StableSort.SortDesc` | flask_app.py:554 | the sorted list is a permutation of its input |
| `StableSort.SortDescNonIncreasing` | flask_app.py:554 | the sorted list is non-increasing in the key |
| `StableSort.SortDescStable` | flask_app.py:554 | the elements of any one key keep their input order |
| `QuestionWeights.ScoreByCat` | flask_app.py:549-553 | `score_by_cat` has exactly the categories as keys, and every category scores at least 1 |
| `QuestionWeights.OrderedCats` | flask_app.py:554 | `ordered_cats` holds the categories, each once |
| `QuestionWeights.OrderedCatsSpec` | flask_app.py:549-554 | `ordered_cats` is a permutation of the categories, non-increasing in score, with ties in category order |
| `QuestionEngine.AnsweredIds` | flask_app.py:516-520 | a question is hard-excluded exactly when the user's history row for it has an answer time |
| `QuestionEngine.AskedTodayIds` | flask_app.py:523-533 | a question is in the asked-today set exactly when it was asked today in this mode |
| `QuestionEngine.RecentCutoff` | flask_app.py:536 | the look-back window starts at least a day before now |
| `QuestionEngine.RecentWindow` | flask_app.py:537-541 | the window is the user's rows in this mode asked at or after the cutoff |
| `QuestionEngine.LatestExists` | flask_app.py:541-542 | every non-empty set of rows has a latest one |
| `QuestionEngine.LatestRows` | flask_app.py:537-544 | the rows taken are `min(max(0, n), window size)` rows of the window, and no row left out was asked later than one taken |
| `QuestionEngine.QueryCategory` | flask_app.py:557-563 | the query returns exactly the catalog questions of the category that pass the mode and level filters |
| `QuestionEngine.CandidatesForCat` | flask_app.py:556-571 | the candidates are exactly the matching questions that are neither hard- nor soft-excluded |
| `QuestionEngine.SearchTier` | flask_app.py:574-582 | one stage of the search over the ordered categories: each category visited gets a level `personal_level` can draw (when the level filter is on); the result is a candidate of category `at` under the stage's filters at that category's level; no earlier category had a candidate at its own level; no result means no category had one |
| `QuestionEngine.NoneOutsideOrder` | flask_app.py:577-582 | when the stages find nothing, every non-excluded question of a category misses the mode, or does not exist |
| `QuestionEngine.Unexcluded` | flask_app.py:585-589 | the filtered catalog holds exactly the questions whose id is not excluded |
| `QuestionEngine.FallbackPoolAsWritten` | flask_app.py:584-592 | the fallback as written: it draws from the catalog and is empty only for an empty catalog; while some question escapes both excludes it offers only such questions, and otherwise it is the whole catalog, answered questions included |
| `QuestionEngine.FallbackAsWrittenRepeatsAnswered` | flask_app.py:584-592 | one answered and one recently asked question: the fallback as written may return the answered one |
| `QuestionEngine.FallbackPool` | flask_app.py:584-592 | the corrected fallback (see Findings): it is empty only for an empty catalog; it avoids answered questions while any unanswered one exists, and avoids every excluded question while any non-excluded one exists |
| `QuestionEngine.SoftExclude` | flask_app.py:546-547 | the soft exclude holds the questions asked today in this mode (when asked for) and the questions of the recent rows, and nothing else |
| `QuestionEngine.WeightsMakeScores` | flask_app.py:549-553 | the affinity, need and mode weight maps, multiplied category by category, give `score_by_cat` |
| `QuestionEngine.OrderCategories` | flask_app.py:549-554 | the order is the stable descending sort of the categories by affinity × need × mode weight |
| `QuestionEngine.StagedSearch` | flask_app.py:573-592 | the three stages in priority order (`FollowsPriority`), then the corrected fallback (see Findings): stage 1 answers from the first category with a candidate at its drawn level in the mode; stage 2 runs only when no category had one, and answers from the first category with a candidate in the mode; stage 3 likewise without the mode filter; the fallback runs only when every question of the ordered categories is excluded; there is no result only for an empty catalog; while some question escapes both excludes, the result is such a question, in every stage; with the corrected fallback, an answered question is returned only when all are answered |
| `QuestionEngine.SelectNextQuestion` | flask_app.py:497-592 | `select_next_question`, with the corrected fallback (see Findings): the categories are searched in the order `OrderedCats(ScoreByCat(...))` of affinity × need × mode weight, and the stages keep that priority (`FollowsPriority`); the soft exclude is asked-today (when asked for) plus the latest rows of the look-back window; the result is a catalog question, missing only for an empty catalog; it escapes both the hard and the soft exclude whenever some question does, and is never an answered one while an unanswered one exists |
| `QuestionEngine.AnswerHistory` | flask_app.py:627-632 | the history after an answer: the (user, question) row is answered now with the quality, and every other row is kept |
| `QuestionEngine.AnswerScores` | flask_app.py:634-641 | the scores after an answer: unchanged for an unknown question; otherwise the row of the question's category gets the raised score and the time now, and every other row is kept |
| `QuestionEngine.QualityOrDefault` | flask_app.py:632 | a missing or zero quality counts as 3; any other value is kept |
| `Models.FindQuestion` | flask_app.py:634 | `Question.query.get(qid)`: a found question is in the catalog with that id; nothing found means no question has it |
| `QuestionEngine.AnsweredRecord` | flask_app.py:627-632 | the answered row has answer time now and the quality; an existing row keeps its mode and asked time; a new row has mode "any" and is asked now |
| `QuestionEngine.RaisedScore` | flask_app.py:640 | the new score is the old score plus the quality while that is at most 100, and 100 otherwise; it never falls for a non-negative quality |
| `QuestionEngine.UpdateAfterAnswer` | flask_app.py:626-643 | the history gets the answered row; the question's category score is raised and stamped with now; the catalog is unchanged, and so are the scores when the question is unknown |
| `QuestionEngine.AnsweringExcludes` | flask_app.py:626-632 | after an answer, the user's hard exclude grows by exactly that question; other users' hard excludes are unchanged |
| `QuestionEngine.ScoreStaysInRange` | flask_app.py:634-641 | scores in 0..100 stay in 0..100 for qualities in 0..100 |
| `QuestionEngine.ExtendedUntil` | flask_app.py:150-161 | the new end is `max(1, days)` days after either now or the stored end, and at least that far beyond both |
| `QuestionEngine.ExtendProUntil` | flask_app.py:150-162 | `pro_until` becomes the extended end, and the subscription becomes "pro" |
| `QuestionEngine.ExtensionsAddUp` | flask_app.py:150-161 | two extensions of a and b days from the same moment equal one extension of a + b days |
| `QuestionEngine.ExtendedUserIsPro` | flask_app.py:150-162 | through the whole extension, the new `pro_until` alone makes the user Pro; without a "pro" subscription the user is Pro exactly until the new end |
| `FeedbackEngine.AnalyzeAnswer` | feedback_engine.py:5-16 | fewer than ten words is "kurz"; otherwise an uncertainty phrase gives "unsicher", then a reflection phrase gives "reflektiert", else "mittel"; each tone holds exactly under its condition |
| `FeedbackEngine.ToneIgnoresCase` | feedback_engine.py:5-16 | lower-casing the answer does not change its tone |
| `FeedbackEngine.FeedbackTextsDistinct` | feedback_engine.py:22-60 | the four feedback texts are pairwise different |
| `FeedbackEngine.GenerateFeedback` | feedback_engine.py:19-30 | an answer of fewer than ten words gets the short-answer text |
| `FeedbackEngine.FeedbackFollowsTone` | feedback_engine.py:19-60 | two answers get the same feedback exactly when they have the same tone |
| `FeedbackEngine.EvaluateTokens` | feedback_engine.py:63-74 | the score is in 0..4; it is 0 exactly for at most 20 words and no depth phrase; odd exactly for 21..50 words; at least 2 exactly for more than 50 words or a depth phrase; 4 exactly for both |
| `FeedbackEngine.TokensIgnoreCase` | feedback_engine.py:63-74 | lower-casing the answer does not change its score |
| `FeedbackEngine.TokensMonotone` | feedback_engine.py:63-74 | more words and no lost depth phrase never lower the score |
| `Prompts.CatalogModes` | prompts.py:3-72 | the catalog has exactly the modes morning and evening |
| `Prompts.SubcategoryCounts` | prompts.py:3-72 | each mode has four sub-categories |
| `Prompts.QuestionCounts` | prompts.py:3-72 | each sub-category has three questions |
| `Prompts.GetQuestion` | prompts.py:75-83 | a mode other than morning or evening raises the `ValueError` with its message; otherwise the result is a sub-category of the mode, its own parent, and one of its questions |
| `Text.ContainsAt` | feedback_engine.py:11 | substring `in` holds exactly when the phrase starts at some position |
| `Text.RunsEquations` | flask_app.py:466-467 | a separator is dropped, and a run that ends at a separator or at the end of the text is one whole token |
| `Text.RunsKeepEverything` | flask_app.py:466-467 | the runs of a character class lose and reorder none of its characters |
| `Text.WordCountLower` | feedback_engine.py:6-7 | `len(s.lower().split()) == len(s.split())` |

## Left out

- Out of scope: the `ai_*` functions, `_call_openai_safe`, `_ensure_openai_client` and `_fallback_feedback`. They call an external text service.
- Out of scope: Flask routes, login, the `ensure_*` column migrations, the `progress` radar, `seed_questions_if_empty`, and the re-selection after seeding.
- Out of scope: `flask_app.generate_feedback` (the tip list of the free feedback page), `group_engine.py` and `share_generator.py`.
- Time zones: `today_bounds_utc` is replaced by the day bounds as parameters. `Day` is the UTC calendar day of a naive UTC timestamp. Timestamps are whole seconds.
- Randomness: only the set a random pick draws from is modelled, not the distribution (for example, the double weight of jitter 0).
- Database: row order, `.first()` on a non-unique filter, and the session machinery are not modelled. The `(user, question)` and `(user, category)` unique constraints are assumed, so the history and the scores are maps keyed by them.
- Commits: the success of a commit is a parameter of `RequireFeatureOrCharge` and `UpdateStreakAndGrantTokens`. A failed commit rolls the touched columns back. For the streak, the re-raised exception is reported as `ok == false`. `UpdateAfterAnswer` assumes its commit succeeds.
- NULL columns: `tokens`, `streak` and `score` are integers and are never NULL in the model. Where the source reads them with `or 0` this is the same. `need_weights_for_user` (flask_app.py:482-483) and `personal_level` (flask_app.py:488-489) use `sc.score` as it is, so a NULL score there raises `TypeError`; the model does not have that error. A NULL `difficulty` or `asked_at` of a question or history row is not modelled either.
- `IsPro`: a `pro_until` with a UTC offset compares badly with the naive clock and raises in `is_pro`. The model does not represent time-zone-aware values. `pro_until` is either missing, a point in time, or unparseable text.
- `Lower`: maps ASCII, the Latin-1 capitals and capital ẞ. Python's other case mappings are not modelled, including those that change a string's length. `IsSpace` is the whitespace set of `str.split()`.
- `FeatureCost`, `Charge` and `GetQuestion`: the German `reason` and `message` texts of the gate and the debit are constructors of `Reason` and `ChargeMessage`, carrying the cost where the text shows it. The `ValueError` text of `get_question` is kept verbatim.
- `QuestionEngine.UpdateAfterAnswer`: `int(quality)` of a non-integer value is not modelled; the quality is an optional integer.
- Default arguments (`mode="morning"`, `recent_days_same_mode=7`, `exclude_last_n_same_mode=3`, `quality=3`) are ordinary parameters.

## Findings

| source | as written | input that shows it | evidently intended | confidence | as-written member | corrected member |
|---|---|---|---|---|---|---|
| pro_feedback_engine.py:208-227 | the milestone table runs on every call, also when a second reflection on the same day leaves the streak where it is, so the day-3 and day-5 bonuses are paid again | streak 2, last reflection yesterday; two calls today: tokens 0 → 1 → 2 | a milestone is paid once, on the day the streak reaches it, as the docstring's rewards list says (pro_feedback_engine.py:198-202); a same-day call only records the time | medium, not executed | `ProFeedbackEngine.AdvanceAsWritten`, `ProFeedbackEngine.AsWrittenRegrantsOnDayThree` | `ProFeedbackEngine.Advance`, `ProFeedbackEngine.SameDayIdempotent` |
| flask_app.py:584-592 | when no question escapes both the hard and the soft exclude, the fallback draws from the whole catalog, answered questions included, even though unanswered ones exist | question 1 answered, question 2 asked recently: the fallback may return question 1 | answered questions are always excluded, as the docstring says (flask_app.py:509): fall back to unanswered questions before the whole catalog | medium, not executed | `QuestionEngine.FallbackPoolAsWritten`, `QuestionEngine.FallbackAsWrittenRepeatsAnswered` | `QuestionEngine.FallbackPool` |
