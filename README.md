# IoT readiness check: navigation and scoring

This project models, in Dafny, the two pieces of logic inside the IoT
security readiness questionnaire, and proves properties about them.

- **The assessment page** (`src/pages/Assessment.tsx`) is a state machine.
  It holds a fixed catalog of eleven questions in four sections:
  Introduction, Psychometric, Technical and WISCAR. The page's state
  record holds the current section, the current question within that
  section, and the answers map from question id to option value. Three
  handlers change that record: `handleAnswer`, `nextQuestion` and
  `previousQuestion`. Two derived values gate the buttons: `canProceed`
  and `isFirstQuestion`. A third, `totalProgress`, feeds the progress bar.
- **The results page** (`src/pages/Results.tsx`) scores a finished
  assessment with `calculateResults`. This is a pure function of the
  answers map, and only the map's size enters the scores.

Files:

- `options.dfy` holds the `Option` datatype.
- `catalog.dfy` (module `Catalog`) holds:
  - the section names and the question catalog;
  - the section filter, which compares each question's tag with the
    lower-cased section name;
  - the facts about how the filter splits the catalog into four
    consecutive runs of sizes 2, 3, 3 and 3.

  The display texts (prompts and option labels) are kept in the
  `Wording` map, keyed by question id. The `Question` entries carry the
  fields the logic uses: id, category, type, option values and section.
- `navigation.dfy` (module `Navigation`) holds:
  - the page state as a value, `State`;
  - each handler's specification as a function on `State`: `Record`,
    `Advance` and `Retreat`;
  - the derived values;
  - the lemmas about all of these;
  - the class `Assessment`, whose fields are the state record's fields.
    Its methods `HandleAnswer`, `NextQuestion` and `PreviousQuestion`
    update those fields in place and are proved against `Record`,
    `Advance` and `Retreat`.
- `scoring.dfy` (module `Scoring`) holds the result record, `Math.min`,
  `Math.round`, the score formulas, the recommendation thresholds and
  `CalculateResults`.
- `session.dfy` (module `Session`) models a user driving the page. The
  user picks answers and presses "Previous" and "Next". A disabled
  button does nothing. It proves the invariant that every question
  before the current one holds a non-empty answer. It follows that any
  session that reaches the results page hands over exactly eleven
  non-empty answers, one per question, and so always scores 95, 90 and
  93, with recommendation "Yes".

## Model

| member | source | states |
|---|---|---|
| Catalog.FilterMembers | src/pages/Assessment.tsx:196 | the section filter keeps a question exactly when it is in the list and carries the tag |
| Catalog.FilterAppend | src/pages/Assessment.tsx:196 | filtering a concatenation is the concatenation of the filtered parts, so declaration order is kept |
| Catalog.FilterRun | src/pages/Assessment.tsx:196 | filtering on a tag that exactly one consecutive run carries returns that run, in order |
| Catalog.SectionTags | src/pages/Assessment.tsx:36-41 | the lower-cased section names are "introduction", "psychometric", "technical" and "wiscar" |
| Catalog.QuestionSections | src/pages/Assessment.tsx:43-194 | the catalog has 11 entries: 2 introduction, then 3 psychometric, 3 technical and 3 wiscar, in that order |
| Catalog.SectionRun | src/pages/Assessment.tsx:196 | the questions of section i are exactly catalog entries Bounds[i] up to Bounds[i+1], in declaration order |
| Catalog.SectionSizes | src/pages/Assessment.tsx:196 | every section has at least one question (2, 3, 3 and 3), and the four runs end at the catalog's end |
| Catalog.PastLastSection | src/pages/Assessment.tsx:196 | past the last section the optional chain yields no tag, and no question matches |
| Catalog.IdsDistinct | src/pages/Assessment.tsx:43-194 | no two catalog questions share an id |
| Catalog.CatalogIds | src/pages/Assessment.tsx:43-194 | the catalog has exactly 11 distinct ids, and each id belongs to some entry |
| Catalog.OptionsWellFormed | src/pages/Assessment.tsx:43-194 | every question offers at least two options, and no option value is empty |
| Navigation.InitialState | src/pages/Assessment.tsx:29-34 | the start state is in bounds, on the first question (catalog entry 0), with no answers |
| Navigation.CurrentAt | src/pages/Assessment.tsx:196-197 | an in-bounds state's current question is defined and is catalog entry Index(s) |
| Navigation.FirstIsIndexZero | src/pages/Assessment.tsx:247 | `isFirstQuestion` holds exactly at catalog position 0 |
| Navigation.AdvanceStep | src/pages/Assessment.tsx:210-226 | `nextQuestion` moves to the next catalog position and keeps the answers; on the last question it completes and hands over the whole answers map |
| Navigation.RetreatStep | src/pages/Assessment.tsx:228-244 | `previousQuestion` moves back one catalog position and keeps the answers; it leaves the state unchanged exactly on the first question |
| Navigation.RetreatUndoesAdvance | src/pages/Assessment.tsx:210-244 | going back after any non-completing `nextQuestion` restores the state |
| Navigation.AdvanceUndoesRetreat | src/pages/Assessment.tsx:210-244 | going forward after any `previousQuestion` off the first question restores the state |
| Navigation.StepsStayInBounds | src/pages/Assessment.tsx:196-244 | both handlers keep both indices in bounds, so the current question stays defined |
| Navigation.RecordUpdatesOneKey | src/pages/Assessment.tsx:200-208 | `handleAnswer` sets the current question's id to the value and changes no index and no other key |
| Navigation.RecordOverwrites | src/pages/Assessment.tsx:200-208 | a later answer to the same question replaces the earlier one |
| Navigation.RecordIdempotent | src/pages/Assessment.tsx:200-208 | recording the same answer twice equals recording it once |
| Navigation.AnswerGatesProceed | src/pages/Assessment.tsx:246 | after an answer, `canProceed` holds exactly when the value is non-empty (truthy) |
| Navigation.ShareBelowQuarter | src/pages/Assessment.tsx:198 | the current section's part `q / n * 25` of the progress lies in [0, 25) for every q < n |
| Navigation.ShareOfFirst | src/pages/Assessment.tsx:198 | the first question of a section adds nothing to the progress |
| Navigation.ShareIncreases | src/pages/Assessment.tsx:198 | one question further into a section is a strictly larger part of the progress |
| Navigation.ProgressRange | src/pages/Assessment.tsx:198 | `totalProgress` lies in [0, 100) |
| Navigation.ProgressAtSectionStart | src/pages/Assessment.tsx:198 | on a section's first question `totalProgress` is exactly 25 per finished section |
| Navigation.ProgressWithinSection | src/pages/Assessment.tsx:198 | moving to the next question of the same section raises `totalProgress` |
| Navigation.ProgressAcrossSections | src/pages/Assessment.tsx:198 | moving to the first question of the next section raises `totalProgress` |
| Navigation.ProgressIncreases | src/pages/Assessment.tsx:198 | every non-completing `nextQuestion` strictly raises `totalProgress` |
| Navigation.Assessment.constructor | src/pages/Assessment.tsx:29-34 | the page starts at section 0, question 0, with an empty answers map |
| Navigation.Assessment.HandleAnswer | src/pages/Assessment.tsx:200-208 | the fields afterwards are `Record` of the fields before, and the indices stay in bounds |
| Navigation.Assessment.NextQuestion | src/pages/Assessment.tsx:210-226 | the fields move as `Advance` says, or they stay and the answers are handed over when `Advance` completes |
| Navigation.Assessment.PreviousQuestion | src/pages/Assessment.tsx:228-244 | the fields afterwards are `Retreat` of the fields before |
| Scoring.Min | src/pages/Results.tsx:49-50 | `Math.min` returns one of its arguments and is at most both |
| Scoring.Round | src/pages/Results.tsx:51 | `Math.round` returns the integer within one half of x, rounding a half up |
| Scoring.RoundedMean | src/pages/Results.tsx:51 | the rounded mean of two integer scores is their sum plus one, divided by two |
| Scoring.CalculateResults | src/pages/Results.tsx:47-101 | psychometric score in [75, 95], technical in [65, 90], overall between them, never "No"; WISCAR facets within [0, 100]; guidance lists of 4, 4, 5, 4 and 3 entries |
| Scoring.ScoreBounds | src/pages/Results.tsx:49-51 | for every answer count: psychometric in [75, 95], technical in [65, 90] and below psychometric, overall between them and within [70, 93] |
| Scoring.ScoresMonotone | src/pages/Results.tsx:48-51 | more answers never lower any of the three scores |
| Scoring.RecommendationBands | src/pages/Results.tsx:53-55 | "Yes" exactly at 75 or more, "No" exactly below 50, "Maybe" exactly in between |
| Scoring.RecommendationByCount | src/pages/Results.tsx:48-55 | the recommendation is "Yes" exactly when at least two questions were answered, and "Maybe" otherwise |
| Scoring.OnlyCountMatters | src/pages/Results.tsx:48-51 | two answer maps of the same size get the same result, whatever values were chosen |
| Scoring.FixedParts | src/pages/Results.tsx:62-99 | every answers map gets the same WISCAR facets 80, 85, 60, 70, 78 and 65, and the same five guidance lists |
| Scoring.ResultsWithoutState | src/pages/Results.tsx:44-55 | without navigation state the page scores 75, 65 and 70, with "Maybe" |
| Scoring.SaturatedResults | src/pages/Results.tsx:48-55 | from ten answers on, the scores are at their ceilings 95, 90 and 93, with "Yes" |
| Session.StepInBounds | src/pages/Assessment.tsx:347-360 | choosing an answer and pressing either button keep the indices in bounds |
| Session.StartProgressed | src/pages/Assessment.tsx:29-34 | the start state satisfies the session invariant |
| Session.ChooseKeeps | src/pages/Assessment.tsx:200-208 | choosing an answer keeps every earlier answer, because ids are distinct |
| Session.NextKeeps | src/pages/Assessment.tsx:210-226 | an enabled "Next" moves on with every question up to the current one answered, or completes with all eleven answered |
| Session.PreviousKeeps | src/pages/Assessment.tsx:228-244 | "Previous" keeps the invariant |
| Session.StepKeeps | src/pages/Assessment.tsx:347-360 | every event, with disabled buttons doing nothing, keeps the invariant; a completing one hands over a finished answers map |
| Session.RunKeeps | src/pages/Assessment.tsx:200-244 | every sequence of events keeps the invariant, and a completing sequence hands over a finished answers map |
| Session.FinishedSize | src/pages/Assessment.tsx:224 | a finished answers map has exactly one entry per catalog question, so 11 entries |
| Session.CompletedSession | src/pages/Results.tsx:48-55 | any session that reaches the results page hands over eleven non-empty answers, which score 95, 90 and 93, with "Yes" |
| Session.ChoiceUnlocksNext | src/pages/Assessment.tsx:357-360 | choosing a non-empty answer enables "Next"; pressing it then reaches the next catalog question, or completes on the last one |

## Left out

- Rendering, styling and icons (all JSX in both pages) are presentation.
  So are the colour and message lookups of the recommendation
  (`getRecommendationColor`, `getRecommendationMessage`).
- Routing is left out. `navigate("/results", …)` becomes the
  `Complete(answers)` outcome of `Advance`, or the `Some(answers)`
  returned by `NextQuestion`. `location.state` becomes a plain optional
  map (`AnswersOrEmpty`). The header's link back to the home page is not
  modelled.
- The display rounding `Math.round(totalProgress)` and the progress bar
  are left out. `totalProgress` itself is exact `real` arithmetic, not
  floating point.
- The `sectionProgress` field is initialised but never read, so the
  model drops it.
- The Download and Share buttons have no handlers.
- `LearningPath.tsx` and `Index.tsx` hold only static content and markup.
- React's state batching is not modelled. `nextQuestion` tests the
  rendered state but updates from `prev`. The model treats every handler
  as one sequential transition of the record.
- Answers are not validated. The page stores whatever value the radio
  group reports. The model's `Choose` event accepts any string, and
  `OptionsWellFormed` shows that every real option value is non-empty.
- `toLowerCase` is modelled on ASCII letters only. Every section name is
  ASCII.
- The prompts and option labels are kept in the `Wording` map, apart
  from the `Question` entries. Only ids, option values and section tags
  take part in the logic.
- Scoring counts answers and ignores the chosen values, as the code of
  `calculateResults` does. The code itself calls this a mock calculation
  (src/pages/Results.tsx:46). No per-option weighting is modelled.
