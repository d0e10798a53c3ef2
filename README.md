# Mariposa therapy-plan pipeline, modelled in Dafny

Mariposa turns a free-text description of symptoms into a therapy plan and a
four-week calendar of sessions. This project models the part of it that
makes decisions, in both of its packages (`app/core` and the older `core`):

- **Research service** (`ResearchService`, `CoreResearchService`). It loads
  the condition knowledge base, looks up an entry, and returns the first
  research articles for a condition. It tallies the treatment keywords
  ("cbt", "medication", "mindfulness", "psychotherapy") named in article
  abstracts. It also ranks conditions against the symptoms: it keeps the
  similarity scores above 0.05 and sorts them best first with a stable sort.
- **Plan generators** (`PlanService`, `CorePlanService`). They ask four
  questions of symptoms that match nothing and turn the answers into
  suggestions. Otherwise they assemble the plan: conditions, confidence
  scores, therapy type, session frequency by severity, goals, techniques
  (after a validation step) and duration.
- **Technique catalogue** (`TechniqueDatabase`). Twelve named technique
  records, plus a default record for any other name.
- **Article table** (`ResearchDatabase`). Five conditions and their
  articles.
- **Calendar planner** (`CalendarPlanner`). It finds the next date of each
  available weekday and sorts those dates. It turns the frequency into
  sessions per week. It then fills up to four weeks, taking the dates in
  order and the techniques in turn.
- **The no-match error** (`Exceptions`).

Supporting modules:

- `Dicts`: Python dictionaries, whose keys keep insertion order.
- `Text`: `lower`, `in` on strings, and `len(split())`.
- `Sorting`: Python's stable `list.sort`, verified as an in-place insertion
  sort on an array.
- `Models`: the request and plan records.

Conventions used throughout:

- A date is a day number, with day 0 a Monday.
- Similarity scores and the knowledge-base document are parameters.
- Floats are `real`s.
- The functions that build sessions take the technique lookup as a
  parameter; the planner always passes `TechniqueDatabase.GetTechniqueInfo`.

Both source packages were published side by side and differ. Where the
`core` package has the same code as the application, the same member models
both, and the table cites the application's lines:

- `ResearchService.GetDsm5Criteria` also models
  core/services/research_service.py:51-52.
- `ResearchService.GetScholarlyArticles` also models
  core/services/research_service.py:54-58.
- `ResearchService.AnalyzeTreatmentEffectiveness` also models
  core/services/research_service.py:60-77.
- `ResearchService.AnalyzeSymptoms` also models
  core/services/research_service.py:22-49.
- `PlanService.SpecificSuggestions` also models
  core/services/plan_service.py:16-27.

The code's policy, which the model follows:

- Unknown techniques are not dropped. The validation step keeps every
  technique, because the default record is never empty.
- The frequency is never downgraded to weekly when there are too few
  available days.
- The calendar has no daily-practice entries, no severity-scaled durations
  (every session lasts "50 minutes") and no clock times.
- The knowledge base is not required to exist. The application's loader
  treats a missing file as an empty one, and both plan generators use that
  loader (core/services/plan_service.py:3 imports the application's
  `ResearchService`). Only the `core` package's own `ResearchService`
  raises `FileNotFoundError`, and no plan generator uses it.

## Model

| member | source | states |
|---|---|---|
| `ResearchService.LoadKnowledgeBase` | app/core/services/research_service.py:19-25 | a missing document gives the empty knowledge base; otherwise its content is returned |
| `CoreResearchService.LoadKnowledgeBase` | core/services/research_service.py:12-20 | a missing document, and only that, gives `FileNotFoundError` with its fixed message; otherwise the content is loaded |
| `ResearchService.GetDsm5Criteria` | app/core/services/research_service.py:31-33 | a known condition key gives its entry; any other key gives the empty record |
| `ResearchService.SlicePrefix` | app/core/services/research_service.py:29 | Python's `s[:n]`: always a prefix, of length `min(n, len)` for `n >= 0` and `len + n` (at least 0) for negative `n` |
| `ResearchService.GetScholarlyArticles` | app/core/services/research_service.py:27-29 | a prefix of the table's list for the condition, of length `min(max_results, available)` |
| `ResearchDatabase.ArticleTable` | app/core/services/research_database.py:5-65 | the table is a well-formed dictionary whose keys are the five conditions in source order |
| `ResearchDatabase.GetArticles` | app/core/services/research_database.py:4-66 | unknown conditions get `[]`; anxiety and depression have two articles, the other three one each; every article has all five keys |
| `ResearchService.MentioningTitles` | app/core/services/research_service.py:45-53 | never more titles than articles |
| `ResearchService.FirstMention` | app/core/services/research_service.py:39-46 | the index of the first article whose lower-cased abstract contains the keyword; no earlier article contains it |
| `ResearchService.FirstMentionFound` | app/core/services/research_service.py:39-53 | a keyword is tallied exactly when some article mentions it |
| `ResearchService.Rank` | app/core/services/research_service.py:45 | the keyword's position in the fixed keyword list, and 4 for anything else |
| `ResearchService.RankOfKeyword` | app/core/services/research_service.py:45 | each keyword ranks at its own position in the keyword list |
| `ResearchService.AddMentionedMembers` | app/core/services/research_service.py:45-51 | after one article, the keys are the old keys plus the keywords its abstract mentions |
| `ResearchService.AddMentionedPrefix` | app/core/services/research_service.py:47-51 | an article only ever appends keys; existing keys keep their places |
| `ResearchService.AddMentionedFirst` | app/core/services/research_service.py:45-51 | starting from no keys, the first key added is the first keyword in list order that the article mentions |
| `ResearchService.TallyKeysMembers` | app/core/services/research_service.py:39-53 | the tally's keys are exactly the keywords that some abstract mentions |
| `ResearchService.NoLaterKept` | app/core/services/research_service.py:42-53 | a keyword mentioned before the last article stays ahead of any other: its first mention is earlier, or the same with the keyword listed first |
| `ResearchService.NoLaterNew` | app/core/services/research_service.py:45-51 | when two keywords are both new in the last article, they share that first mention and the one listed earlier in the keyword list is ahead |
| `ResearchService.TallyFirstKey` | app/core/services/research_service.py:39-55 | the tally's first key is the keyword mentioned earliest; a tie goes to the keyword listed first |
| `ResearchService.AddMentionedNew` | app/core/services/research_service.py:45-51 | the keys one article adds come after the old ones, are new, are mentioned by its abstract, and follow the keyword list order |
| `ResearchService.FirstMentionKept` | app/core/services/research_service.py:42-53 | a keyword already mentioned before the last article keeps its first mention |
| `ResearchService.FirstMentionNew` | app/core/services/research_service.py:42-53 | a keyword first mentioned by the last article has its first mention there |
| `ResearchService.TallyKeysOrdered` | app/core/services/research_service.py:39-53 | any two keys of the tally are in order: the earlier one is first mentioned by an earlier article, or by the same article and listed earlier in the keyword list |
| `ResearchService.StatsExtend` | app/core/services/research_service.py:52-53 | one more article adds its title to a keyword's titles exactly when its abstract mentions the keyword |
| `ResearchService.RecordMention` | app/core/services/research_service.py:47-53 | the entry is created as `{0, []}` when missing (its key goes last), then its count is incremented and the title appended; nothing else changes |
| `ResearchService.TryKeyword` | app/core/services/research_service.py:45-53 | testing one more keyword against the abstract extends the tally to that keyword, keys and statistics alike |
| `ResearchService.TallyArticle` | app/core/services/research_service.py:42-53 | after one more article, keys and statistics are those of the longer article list |
| `ResearchService.AnalyzeTreatmentEffectiveness` | app/core/services/research_service.py:35-55 | the keys are exactly the keywords some abstract mentions, every two of them in first-mention order with ties in keyword-list order; each has the number of mentioning articles and their titles in article order |
| `ResearchService.MissingField` | app/core/services/research_service.py:66 | the criteria text raises `KeyError` exactly when the entry lacks "name" or "diagnostic_criteria"; "name" is checked first |
| `ResearchService.CriteriaText` | app/core/services/research_service.py:66 | the comparison text starts with the condition's name |
| `ResearchService.FirstMissing` | app/core/services/research_service.py:63-67 | no `KeyError` exactly when every entry has both fields |
| `ResearchService.FirstMissingPrefix` | app/core/services/research_service.py:63-67 | the first entry with a missing field decides the error, whatever follows |
| `ResearchService.CriteriaTexts` | app/core/services/research_service.py:63-67 | one criteria text per condition key, in knowledge-base order |
| `ResearchService.CriteriaStep` | app/core/services/research_service.py:63-67 | one more entry either raises its own `KeyError`, which is then the first, or appends its criteria text |
| `ResearchService.CollectCriteria` | app/core/services/research_service.py:63-67 | the loop raises the `KeyError` of the first incomplete entry; otherwise it collects every criteria text in knowledge-base order |
| `ResearchService.Zip` | app/core/services/research_service.py:77 | `zip` stops at the shorter list and pairs equal positions |
| `ResearchService.ScoreLeTotal` | app/core/services/research_service.py:82 | ordering by descending score is a total preorder, as the stable sort needs |
| `ResearchService.AboveThresholdMembers` | app/core/services/research_service.py:80-81 | a pair survives the filter exactly when its score is above 0.05 |
| `ResearchService.AboveThresholdKeepsDistinct` | app/core/services/research_service.py:81 | the filter cannot make two pairs share a condition |
| `ResearchService.RankedMatchesMembers` | app/core/services/research_service.py:74-84 | a (condition, score) pair is returned exactly when some condition has that score and it is above 0.05 |
| `ResearchService.RankedMatchesSorted` | app/core/services/research_service.py:82 | the matches come in non-increasing score order |
| `ResearchService.RankedMatchesStable` | app/core/services/research_service.py:82 | conditions with equal scores keep their knowledge-base order |
| `ResearchService.RankedMatchesDistinct` | app/core/services/research_service.py:63-84 | each condition is returned at most once |
| `ResearchService.SortByScore` | app/core/services/research_service.py:82 | the in-place sort leaves the stable best-first order of the matches |
| `ResearchService.AnalyzeSymptoms` | app/core/services/research_service.py:57-84 | the `KeyError` of the first incomplete entry; or, from the scores of the criteria texts plus the symptoms, the matches above the threshold, stably sorted best first |
| `Sorting.Insert` | app/core/services/research_service.py:82 | inserting adds exactly one element |
| `Sorting.Sort` | app/core/services/calendar_planner.py:36 | sorting keeps the length |
| `Sorting.InsertPermutes` | app/core/services/research_service.py:82 | insertion adds exactly the inserted element to the multiset |
| `Sorting.SortPermutes` | app/core/services/calendar_planner.py:36 | the sort returns a permutation of its input |
| `Sorting.InsertMembers` | app/core/services/research_service.py:82 | the inserted element and the old ones are exactly the new members |
| `Sorting.InsertSorted` | app/core/services/research_service.py:82 | inserting into a sorted list keeps it sorted |
| `Sorting.SortSorted` | app/core/services/calendar_planner.py:36 | under a total preorder the output is sorted |
| `Sorting.ClassAppend` | app/core/services/research_service.py:82 | appending one element extends its equivalence class at the end |
| `Sorting.InsertClass` | app/core/services/research_service.py:82 | insertion places the new element last among its equals |
| `Sorting.SortStable` | app/core/services/research_service.py:82 | equivalent elements leave in the order they entered (Python's sort is stable) |
| `Sorting.SortKeepsDistinct` | app/core/services/research_service.py:82 | sorting cannot make two elements share a key |
| `Sorting.InsertKeepsDistinct` | app/core/services/research_service.py:82 | inserting an element with a new key keeps keys distinct |
| `Sorting.InsertStep` | app/core/services/research_service.py:82 | one shift of the in-place insertion keeps the list it will produce |
| `Sorting.InsertInPlace` | app/core/services/calendar_planner.py:36 | the first `i+1` cells become the insertion of `a[i]` into the sorted prefix; the rest is unchanged |
| `Sorting.InsertionSort` | app/core/services/calendar_planner.py:36 | the array ends up holding the stable sort of its old contents |
| `Dicts.Dict.Set` | app/core/services/plan_service.py:53 | `d[k] = v`: an existing key keeps its position, a new key goes last, and the map gets the value |
| `Dicts.Empty` | app/core/services/research_service.py:37 | `{}` is well formed and has no keys |
| `Dicts.Firsts` | app/core/services/plan_service.py:52 | `[cond for cond, _ in matches]`: same length, the first of each pair |
| `Dicts.FromPairs` | app/core/services/plan_service.py:53 | the dict comprehension yields a well-formed dictionary |
| `Dicts.NotListedNotMapped` | app/core/services/plan_service.py:53 | a key not listed in a dictionary has no value in it |
| `Dicts.FromPairsInOrder` | app/core/services/plan_service.py:53 | pairs with distinct keys are inserted in order, each key mapped to its own value |
| `Dicts.DistinctFirsts` | app/core/services/plan_service.py:52-53 | distinct condition names mean no two pairs share a key |
| `Dicts.FromPairsDistinct` | app/core/services/plan_service.py:53 | with distinct keys the comprehension keeps their order and pairs each key with its own value |
| `Text.Lower` | app/core/services/plan_service.py:30 | `lower()` keeps the length and lower-cases each character |
| `Text.LowerIdempotent` | app/core/services/research_service.py:42 | lower-casing twice is lower-casing once and leaves no capital letter |
| `Text.ContainsAt` | app/core/services/research_service.py:46 | a substring found at a position makes `in` true |
| `Text.WordCount` | app/core/services/plan_service.py:24 | `len(split())` never exceeds the length |
| `Text.WordCountZero` | app/core/services/plan_service.py:24 | there are no words exactly when every character is whitespace |
| `Exceptions.NewNoMatchingConditionsError` | app/core/utils/exceptions.py:1-12 | keeps the symptoms and a non-empty suggestion list; an absent or empty list is replaced by the five defaults; the message is fixed |
| `PlanService.Fired` | app/core/services/plan_service.py:27-37 | at most one suggestion per check |
| `PlanService.FiredMembers` | app/core/services/plan_service.py:27-37 | a suggestion is listed exactly when its check fires |
| `PlanService.FiredPrefix` | app/core/services/plan_service.py:27-37 | the suggestions of the first checks are a prefix of all the suggestions |
| `PlanService.FiredPosition` | app/core/services/plan_service.py:27-37 | a check that fires puts its text right after the suggestions of the checks before it |
| `PlanService.SuggestionIffRule` | app/core/services/plan_service.py:27-37 | each of the four suggestions is given exactly when its condition holds |
| `PlanService.FiredOrdered` | app/core/services/plan_service.py:27-37 | suggestions appear in the order of the checks |
| `PlanService.FiredRules` | app/core/services/plan_service.py:24-37 | the four checks, in order, each adding its text when it fires |
| `PlanService.ChecksFire` | app/core/services/plan_service.py:24-37 | each rule fires exactly when its check holds: fewer than ten words, no "feel", no "when", neither "impact" nor "affect" |
| `PlanService.EmptySymptomsFireAll` | app/core/services/plan_service.py:24-37 | an empty description gets all four suggestions, "more detailed description" first |
| `PlanService.SpecificSuggestions` | app/core/services/plan_service.py:24-37 | the list built by the four checks is the fired suggestions, in rule order |
| `PlanService.AppSuggestions` | app/core/services/plan_service.py:39-47 | the error always carries at least one suggestion |
| `PlanService.AppSuggestionsKept` | app/core/services/plan_service.py:40-49 | the error keeps the application's suggestions; the five generic ones appear exactly when no check fires |
| `PlanService.SessionFrequency` | app/core/services/plan_service.py:70-75 | low gives "bi-weekly", moderate "weekly", severe "twice-weekly"; the lookup never fails |
| `PlanService.ResearchTherapyTypeIsKeyword` | app/core/services/plan_service.py:61-67 | the therapy type is a keyword that some of the first five articles mention; it is the default exactly when none is mentioned |
| `PlanService.ResearchTherapyTypeEarliest` | app/core/services/plan_service.py:61-67 | the therapy type is the keyword mentioned earliest among those articles, a tie going to the keyword listed first |
| `PlanService.UnknownConditionDefaultTherapy` | app/core/services/plan_service.py:61-67 | a condition without articles gets "Cognitive Behavioral Therapy" |
| `PlanService.CbtFirst` | app/core/services/plan_service.py:66-67 | when the first article mentions "cbt", it is the first key of the tally |
| `PlanService.PanicGetsCbt` | app/core/services/plan_service.py:61-67 | the condition "panic" gets the therapy type "cbt" |
| `PlanService.ValidateTechniques` | app/core/services/plan_service.py:95-102 | the validation keeps every technique, in order, because every record the catalogue returns is truthy |
| `PlanService.CatalogTechniques` | app/core/services/plan_service.py:95-102 | the filter the validation evidently means: a technique is kept exactly when it is a catalogue key |
| `PlanService.CatalogTechniquesAppend` | app/core/services/plan_service.py:95-102 | the filter keeps order: filtering a concatenation concatenates the filtered parts |
| `PlanService.FallbackTechniquesUnknown` | app/core/services/plan_service.py:85-90 | three of the four fallback techniques are not catalogue keys, so only the session technique can pass the catalogue filter |
| `PlanService.GenerateTherapyPlan` | app/core/services/plan_service.py:17-114 | a `KeyError` exactly when an entry lacks a field. Otherwise the no-match error exactly when nothing is ranked, carrying the application's suggestions. Otherwise a plan of the ranked conditions, their scores, the research therapy type, the severity's frequency, and the entry's goals, techniques and duration or their defaults |
| `PlanService.PlanConditions` | app/core/services/plan_service.py:52-53 | the conditions are distinct knowledge-base keys; the confidence scores list the same conditions in the same order, each with its own score |
| `PlanService.RankedConditionsAreKeys` | app/core/services/plan_service.py:52 | every identified condition is a knowledge-base key |
| `PlanService.PlanScores` | app/core/services/plan_service.py:53-56 | every confidence is a similarity of its condition and above 0.05, and the primary condition's is the highest |
| `PlanService.PlanKeepsEveryMatch` | app/core/services/plan_service.py:52 | a condition scoring above the threshold is always identified |
| `CorePlanService.GenerateTherapyPlan` | core/services/plan_service.py:12-70 | as the application's plan, but the error carries only the fired suggestions. Therapy type, goals, techniques and duration come from the entry, with the `core` defaults |
| `CorePlanService.CoreSuggestions` | core/services/plan_service.py:16-29 | when no check fires the empty list is passed, so the error's own five defaults are used |
| `CorePlanService.CoreTherapyTypeIsEntryName` | core/services/plan_service.py:50 | a plan is only made when the entry has a name, so the therapy type is that name and the default is never used |
| `TechniqueDatabase.Catalog` | app/core/services/technique_database.py:30-304 | the catalogue is a well-formed dictionary whose twelve keys are the technique names in source order |
| `TechniqueDatabase.CatalogKeysDistinct` | app/core/services/technique_database.py:30-304 | no technique name appears twice in the catalogue |
| `TechniqueDatabase.GetTechniqueInfo` | app/core/services/technique_database.py:306-307 | the record under exactly this name, or the default record for any other name |
| `TechniqueDatabase.TechniqueInfoComplete` | app/core/services/technique_database.py:4-307 | every lookup gives a truthy record with a description, steps and exercises with instructions, and no resources |
| `TechniqueDatabase.CatalogValues` | app/core/services/technique_database.py:30-304 | every catalogue value is one of the twelve records |
| `TechniqueDatabase.RecordsComplete` | app/core/services/technique_database.py:30-304 | each of the twelve records has a description, steps and exercises with instructions, and no resources |
| `TechniqueDatabase.CatalogComplete` | app/core/services/technique_database.py:30-304 | every catalogue record is complete and has no resources |
| `TechniqueDatabase.DefaultRecordShape` | app/core/services/technique_database.py:6-28 | the default record names the technique in lower case and has five steps and one 50-minute guided exercise of five instructions |
| `TechniqueDatabase.ExerciseCounts` | app/core/services/technique_database.py:54-83 | "Social Skills Training" has two exercises, every other entry one |
| `TechniqueDatabase.NotACatalogKey` | app/core/services/technique_database.py:306-307 | a name that differs from every catalogue name in length or in one letter is not a key |
| `TechniqueDatabase.AppFallbacksGetDefaultRecord` | app/core/services/plan_service.py:85-90 | lookup is case-sensitive: "Mindfulness exercises", "Behavioral activation" and "Stress management techniques" are not catalogue names, the first two only because of letter case |
| `TechniqueDatabase.MindfulnessExercisesIsNoKey` | app/core/services/plan_service.py:87 | "Mindfulness exercises" is not a catalogue name |
| `TechniqueDatabase.BehavioralActivationLowerIsNoKey` | app/core/services/plan_service.py:88 | "Behavioral activation", lower-case "a", is not a catalogue name |
| `TechniqueDatabase.StressManagementLowerIsNoKey` | app/core/services/plan_service.py:89 | "Stress management techniques", in lower case, is not a catalogue name |
| `TechniqueDatabase.RegularSessionsGetDefaultRecord` | core/services/plan_service.py:52 | "Regular therapy sessions" and "Regular cbt sessions" are not keys, though "Regular CBT sessions" is |
| `CalendarPlanner.Weekday` | app/core/services/calendar_planner.py:29 | `weekday()` is below 7 |
| `CalendarPlanner.IndexOf` | app/core/services/calendar_planner.py:28 | `list.index`: no position exactly when the element is absent; otherwise its first position |
| `CalendarPlanner.FirstUnknownDay` | app/core/services/calendar_planner.py:27-28 | no unknown day exactly when every listed day is a weekday name |
| `CalendarPlanner.FirstUnknownDayIsFirst` | app/core/services/calendar_planner.py:27-28 | the reported day is listed, is no weekday name, and every day before it is one |
| `CalendarPlanner.UnknownDayIsFirst` | app/core/services/calendar_planner.py:27-28 | the first listed day that is no weekday name is the one reported |
| `CalendarPlanner.NextOccurrence` | app/core/services/calendar_planner.py:28-32 | the date lies 1 to 7 days after the start and falls on the requested weekday |
| `CalendarPlanner.NextDate` | app/core/services/calendar_planner.py:28-31 | the computed `days_ahead` gives the next occurrence of the weekday after the start |
| `CalendarPlanner.BaseDates` | app/core/services/calendar_planner.py:26-33 | one date per listed day |
| `CalendarPlanner.BaseDatesStep` | app/core/services/calendar_planner.py:27-33 | each listed day appends its next occurrence |
| `CalendarPlanner.BaseDatesInWeek` | app/core/services/calendar_planner.py:26-33 | every date lies in the week after the start and is named after its listed day |
| `CalendarPlanner.NextDates` | app/core/services/calendar_planner.py:26-33 | the loop reports the first unknown day, or builds the next date of every day |
| `CalendarPlanner.SortDates` | app/core/services/calendar_planner.py:36 | the in-place sort gives the dates in ascending order |
| `CalendarPlanner.SortedDates` | app/core/services/calendar_planner.py:26-36 | the sorted dates are ascending, one per listed day, each in the week after the start and on a listed day |
| `CalendarPlanner.DistinctDates` | app/core/services/calendar_planner.py:26-33 | different day names give different dates |
| `CalendarPlanner.SessionsPerWeek` | app/core/services/calendar_planner.py:42-49 | a rate of the table, case-insensitively; an unknown frequency means 1; the rate is 0.5 exactly for "bi-weekly" |
| `CalendarPlanner.PlanFrequencyRates` | app/core/services/calendar_planner.py:42-49 | "bi-weekly" is 0.5, "weekly" 1 and "twice-weekly" 2 sessions a week |
| `CalendarPlanner.RateFacts` | app/core/services/calendar_planner.py:52-55 | below one a week the quota is 0 and two sessions are needed; otherwise the quota is at least 1 and four weeks of it are needed |
| `CalendarPlanner.WeeklySessions` | app/core/services/calendar_planner.py:77-78 | a week holds the quota or the number of available days, whichever is smaller |
| `CalendarPlanner.Shift` | app/core/services/calendar_planner.py:74 | moving every date by whole weeks keeps the length |
| `CalendarPlanner.Sessions` | app/core/services/calendar_planner.py:58-105 | the first `count` sessions, session `i` being on date `i % m` of week `i / m` with technique `i % len(techniques)` |
| `CalendarPlanner.WeeksOfProduct` | app/core/services/calendar_planner.py:77-103 | after `w` full weeks of `m` sessions the count is `w * m` |
| `CalendarPlanner.QuotaFits` | app/core/services/calendar_planner.py:66-78 | before the fourth week ends, the sessions still needed never fall below the quota |
| `CalendarPlanner.SessionStep` | app/core/services/calendar_planner.py:84-101 | the `s`-th session of week `w` falls on the `s`-th date shifted by `w` weeks |
| `CalendarPlanner.SessionsExtend` | app/core/services/calendar_planner.py:102 | appending the next session extends the schedule by one |
| `CalendarPlanner.CycleStep` | app/core/services/calendar_planner.py:87-89 | refilling the emptied queue, then taking its head, gives the techniques in turn |
| `CalendarPlanner.ShiftTail` | app/core/services/calendar_planner.py:84 | `pop(0)` of the shifted dates gives the next date shifted, then the rest |
| `CalendarPlanner.ScheduleWeek` | app/core/services/calendar_planner.py:80-103 | one week appends its `m` sessions and keeps the technique queue in step |
| `CalendarPlanner.ScheduleWeeks` | app/core/services/calendar_planner.py:58-105 | the loop, with the bi-weekly skip, yields four weeks of `m` sessions |
| `CalendarPlanner.GenerateWeeklySchedule` | app/core/services/calendar_planner.py:10-109 | nothing without days or techniques; the first unknown day name as the error; else four weeks of sessions over the sorted dates |
| `CalendarPlanner.ScheduledSessions` | app/core/services/calendar_planner.py:16-36 | a schedule is only built when every listed day is a weekday name |
| `CalendarPlanner.ScheduleSize` | app/core/services/calendar_planner.py:52-78 | a schedule has `4m` sessions, never more than needed, and exactly as many as needed when the rate is at least one and the days suffice |
| `CalendarPlanner.ScheduleDates` | app/core/services/calendar_planner.py:26-101 | session `i` is in week `i / m` of the four, named after its own weekday, on a day the patient listed |
| `CalendarPlanner.FourWeeksDates` | app/core/services/calendar_planner.py:74-101 | the same facts for any dates of the week after the start |
| `CalendarPlanner.FourWeeksWeek` | app/core/services/calendar_planner.py:66-102 | week `w` of the four holds `m` sessions, the `t`-th on the `t`-th date moved `w` weeks later |
| `CalendarPlanner.FourWeeksSlot` | app/core/services/calendar_planner.py:74-84 | the session in slot `t` of week `w` exists and falls on the `t`-th date moved `w` weeks later |
| `CalendarPlanner.WeeksWithin` | app/core/services/calendar_planner.py:66 | each of the four weeks ends within the first `4 * m` sessions |
| `CalendarPlanner.EarliestDates` | app/core/services/calendar_planner.py:26-36 | the sorted dates are the next dates of the listed days in another order, and the first `m` are never later than the rest |
| `CalendarPlanner.SessionDate` | app/core/services/calendar_planner.py:74-96 | one session's date is in its week, and its day name is that of its first-week date |
| `CalendarPlanner.ScheduleChronological` | app/core/services/calendar_planner.py:36-102 | dates never decrease along the schedule, and strictly increase when no day is listed twice |
| `CalendarPlanner.FourWeeksChronological` | app/core/services/calendar_planner.py:66-102 | from ascending dates of the week after the start, the four weeks never go back in time, and move strictly forward when no date repeats |
| `CalendarPlanner.SessionOrder` | app/core/services/calendar_planner.py:36-84 | a later session in the same week takes a later sorted date; a later week comes after |
| `CalendarPlanner.WeekOrder` | app/core/services/calendar_planner.py:66-105 | a later session never belongs to an earlier week |
| `CalendarPlanner.WeekOfSession` | app/core/services/calendar_planner.py:66 | every session falls in one of the four weeks |
| `CalendarPlanner.WeekdayShift` | app/core/services/calendar_planner.py:74 | whole weeks keep the weekday |
| `CalendarPlanner.ScheduleTechniques` | app/core/services/calendar_planner.py:87-101 | techniques in turn, starting over after the last; every session has the therapy type, "50 minutes" and the complete catalogue record of its technique |
| `CalendarPlanner.NothingToSchedule` | app/core/services/calendar_planner.py:16-17 | no days or no techniques give an empty schedule |
| `CalendarPlanner.UnknownDayReported` | app/core/services/calendar_planner.py:27-28 | an error exactly when there is something to schedule and some listed day is no weekday name; it names the first such day |
| `CalendarPlanner.BiWeeklySchedulesNothing` | app/core/services/calendar_planner.py:52-78 | as written, "bi-weekly" schedules no session although two are needed |
| `CalendarPlanner.CorrectedMeetsNeed` | app/core/services/calendar_planner.py:52-78 | the corrected schedule places exactly the sessions needed; bi-weekly ones fall in the first and third weeks, two weeks apart, with the techniques in turn |
| `CalendarPlanner.SeveritySchedule` | app/main.py:249-253 | scheduling the plan's own frequency: low severity gets no session, moderate `min(4, 4n)`, severe `min(8, 4n)` for `n` listed days |
| `CalendarPlanner.PlanFrequencySizes` | app/core/services/calendar_planner.py:52-78 | for `n` available days the four weeks hold 0 bi-weekly, `min(4, 4n)` weekly and `min(8, 4n)` twice-weekly sessions |
| `CalendarPlanner.DivModUnique` | app/core/services/calendar_planner.py:74 | a quotient and remainder in range are the only ones |
| `CalendarPlanner.DivMod` | app/core/services/calendar_planner.py:74 | `(q*m + s) / m == q` and `% m == s` for `s < m` |
| `CalendarPlanner.ModNext` | app/core/services/calendar_planner.py:87-89 | the round-robin index advances by one and wraps to 0 |
| `CalendarPlanner.MulAtLeast` | app/core/services/calendar_planner.py:77 | a positive multiple of `m` is at least `m` |

## Left out

- TF-IDF vectorisation and cosine similarity: `similarity` is a parameter
  from the texts to their scores. The model therefore does not capture that
  scores lie in [0, 1], nor the vectoriser's `ValueError` on an empty
  vocabulary. With an empty knowledge base, `analyze_symptoms` compares the
  symptoms against no criteria at all
  (app/core/services/research_service.py:74), which scikit-learn rejects
  with `ValueError` (not executed). The model gives the empty list there
  instead, so `GenerateTherapyPlan` reports no matching condition.
- File I/O: the knowledge-base document is a parameter (absent or its
  content). The model does not cover JSON parsing, the plan service's
  unused load of `data/mock/disorders.json`, or creating the cache
  directory.
- The clock: `datetime.now()` is replaced by the start-date parameter.
  Times of day are dropped, and the `%Y-%m-%d` date string is the day
  number itself.
- The debug `print` calls.
- `CalendarPlanner.GenerateWeeklySchedule`: Python raises `ValueError` from
  `list.index` on a day that is not a weekday name; the model returns
  `UnknownDay` with that day. The loop variable `current_date` is kept, and
  advanced by a week on each skipped week as in the source, but nothing
  reads it, so no contract mentions it.
- `CalendarPlanner.ScheduleWeek`: the `if not week_days: break` guard is
  proved unreachable, because the week never holds more sessions than it
  has dates.
- `Text.Lower`: only A to Z are lower-cased, because non-ASCII case mapping
  is not modelled.
- Floats are exact reals, so float rounding of the scores is not modelled.
- `Models`: pydantic validation of the request is not modelled. Severity is
  a closed enumeration.
- `PlanService.PanicGetsCbt`: no companion lemma for "anxiety" or for
  "depression". Proving that the anxiety abstract contains "cbt" at
  position 36 needs character facts deep inside a 144-character literal,
  which the solver does not reach. The first depression abstract mentions
  "medication" and "psychotherapy", and "medication" comes earlier in the
  keyword list, so the therapy type is "medication". Proving that needs
  "cbt" to be absent from the whole 143-character abstract, the same
  limitation.
- The user interface, the HTTP API, the sentiment analyser, the journal and
  the crisis banner are not part of this model.

## Findings

| source | as written | input that shows it | evidently intended | confidence | as-written member | corrected member |
|---|---|---|---|---|---|---|
| app/core/services/calendar_planner.py:52-78 | the bi-weekly quota `int(0.5)` is 0, so every week's `min(0, ...)` schedules nothing | frequency "bi-weekly" (what a low-severity plan carries), any valid days and techniques: the schedule is empty | two sessions a month, one in each of weeks 0 and 2, as the comments on lines 52-53 and 67 say | high, not executed | `CalendarPlanner.BiWeeklySchedulesNothing` | `CalendarPlanner.CorrectedMeetsNeed` |
| app/core/services/plan_service.py:95-102 | `if technique_info:` is always true, because `get_technique_info` falls back to a non-empty default record, so no technique is ever dropped | an entry without "recommended_techniques": "Mindfulness exercises", which is not a catalogue key, stays in the plan | keep only techniques with a catalogue record | medium, not executed | `PlanService.ValidateTechniques` | `PlanService.CatalogTechniques` |
