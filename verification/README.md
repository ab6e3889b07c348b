# Career matching: feature assembly, ranking, explanation, catalog lookup and skill assessment

A Dafny model of the data-handling core of the career-guidance backend's
`matching/views.py`. The views wrap a pretrained classifier. Around it sit
five small pure routines, and these are what the model covers:

- **Feature assembly** (`preprocess_input`). Skills and interests are
  lower-cased and stripped. Each encoder class gets a 0/1 indicator column.
  The stripped education level is encoded by the education encoder. Assembly
  fails when that level is unknown, and also when an encoder has no classes:
  pandas refuses to set a row on a frame with no columns. The three column groups are concatenated,
  repeated column names are dropped (the first one wins), and the row is
  reindexed to the training schema `feature_names`, with 0 in any missing
  column.
- **Top-3 ranking**. The class indices with the three highest
  probabilities, most probable first, named through the target encoder.
- **Explanation**. For each recommendation, the first three of the user's
  own skills and interests whose `lower()` is a known class, plus
  `education_match = True`.
- **Career details** (`get_career_details`). The first catalog row whose
  name matches ignoring case supplies the details. If no row matches, the
  result is placeholders. `required_skills` is parsed as JSON first, then
  by comma split, then as `[]`.
- **Skill assessment** (`process_skills`, `calculate_percentage_scores`).
  The skills list is validated. The gap-analysis lines are routed by
  prefix into missing / to-improve / strong. The skills are grouped by type
  into five fixed groups, and each group's average score is given as a
  percentage.

Modules: `Wrappers` (Option/Result), `Text` (ASCII `lower`, `strip`,
`find`, `split`), `FeatureAssembler`, `Ranking`, `Explanations`,
`CareerCatalog`, `SkillAssessment`, and `Prediction`, which joins the first
four the way `predict_career` does.

Foreign collaborators are parameters:
- the classifier's `predict_proba` is a function from the feature row to a
  probability vector;
- `json.loads` is a function from text to `Option<Json>`, where `None`
  means it raised;
- `identify_skill_gaps` is a function from the skills list to the analysis
  lines.

Three behaviours of the code that are easy to misread:
- The explanation matches `skill.lower()` against the vocabulary without
  stripping. The features use `lower().strip()`. So a padded skill such as
  `" Python"` sets the `python` column but is not explained
  (`Explanations.PaddedSkillEncodedButNotExplained`).
- When the catalog has no `required_skills` column, `row.get` returns `''`.
  That text does not decode as JSON, so it is comma-split into one empty
  piece. The result is `[""]`, not an empty list
  (`CareerCatalog.AbsentRequiredSkillsColumn`).
- A routed analysis line yields `split(": ")[1]`. That is the text between
  the first and the second `": "`, not everything after the first one. A
  routed line with no `": "` at all raises `IndexError`, which the model
  returns as `MissingSeparator`.

## Model

| member | source | states |
|---|---|---|
| `Text.Lower` | matching/views.py:72-73 | `str.lower()` on ASCII: same length, no upper-case letter left, every other character kept |
| `Text.Strip` | matching/views.py:72-73 | `str.strip()`: the result is a contiguous slice of the input with no white space at either end, and only white space was cut off |
| `Text.StripTrimmed` | matching/views.py:94 | text with no surrounding white space is its own strip (the education level is only trimmed, never case-folded) |
| `Text.Split` | matching/views.py:149 | `str.split(sep)`: at least one piece, joining the pieces with `sep` gives the input back, no piece contains `sep`, and there are two or more pieces exactly when `sep` occurs |
| `Text.SplitCharCount` | matching/views.py:149 | splitting on one character gives exactly one piece more than the number of times that character occurs |
| `FeatureAssembler.Indicators` | matching/views.py:76-89 | the indicator frame has one column per vocabulary class, in class order; a column is 1 iff its class is among the normalised inputs and 0 otherwise |
| `FeatureAssembler.EncodeIndicators` | matching/views.py:75-91 | setting the row of zeros fails iff the encoder has no classes; otherwise the zero-fill-then-set loop, which skips unknown inputs, produces exactly that indicator frame: 1 iff some input equals the class |
| `FeatureAssembler.Dedup` | matching/views.py:103-104 | after duplicate-column removal the names are distinct, and every name reads the value of its FIRST column in the concatenated row |
| `FeatureAssembler.Reindex` | matching/views.py:119 | on a row with distinct names, the reindexed columns are exactly the schema names in order; each holds the row's value for that name, or 0 when the row lacks it |
| `FeatureAssembler.CodeOf` | matching/views.py:95 | the code of a level is present iff the level is a class, and it is the position of that class |
| `FeatureAssembler.EncodeEducation` | matching/views.py:94-96 | encoding succeeds iff the trimmed level (case kept) is a class; the code names that class; otherwise the error carries the trimmed level |
| `FeatureAssembler.PreprocessInput` | matching/views.py:67-124 | assembly succeeds iff both indicator encoders have classes and the trimmed education (default "bachelor's") is known; an encoder without classes gives the empty-frame error, which is raised before the education is looked at, and otherwise the failure is the unknown-level error; on success the row's columns equal `feature_names` exactly and in order |
| `FeatureAssembler.AssembleLookup` | matching/views.py:98-104 | in the concatenated frame (skills, interests, education code) the first column of a name holds its `ColumnValue`, and a name in no group reads as 0 |
| `FeatureAssembler.PreprocessValues` | matching/views.py:72-119 | each schema column holds: its skill indicator if it is a skill class (so a skill indicator wins over an interest column of the same name), else its interest indicator, else the education code for `education_encoded`, else 0 |
| `FeatureAssembler.SameKnownInputsSameRow` | matching/views.py:72-91 | two requests with the same education and the same KNOWN normalised skills and interests give the same result: input order, repeats and unknown entries do not matter |
| `FeatureAssembler.UnknownSkillIgnored` | matching/views.py:78-82 | appending a skill whose normalised form is not a class changes neither the outcome nor the row |
| `FeatureAssembler.UnknownInterestIgnored` | matching/views.py:87-91 | appending an interest whose normalised form is not a class changes neither the outcome nor the row |
| `FeatureAssembler.AgeIgnored` | matching/views.py:70 | the age (default 25) never influences the outcome |
| `Ranking.BestUnselected` | matching/views.py:186 | returns a class not yet selected whose probability is at least that of every other unselected class |
| `Ranking.TopIndices` | matching/views.py:185-186 | returns min(k, n) distinct class indices in non-increasing probability; no unselected class is more probable than any selected one |
| `Ranking.TopIsMax` | matching/views.py:186 | the first selected class is at least as probable as every class |
| `Ranking.RankCareers` | matching/views.py:185-190 | the top-3 indices, with the title at rank i being the target class at the i-th index and the probability being that class's; it fails iff an index has no class, which is impossible when there are at least as many classes as probabilities |
| `Explanations.Matching` | matching/views.py:199-202 | keeps exactly the inputs whose `lower()` is a class, in their original spelling, never more than the input |
| `Explanations.MatchingAppend` | matching/views.py:199-202 | the filter keeps input order: filtering a concatenation concatenates the filtered parts |
| `Explanations.Explain` | matching/views.py:199-208 | `education_match` is true; each list is a prefix of the matching inputs, at most 3 long, and holds all of them when fewer than 3 match; it depends only on the request and encoders |
| `Explanations.ExplainedSkillsAreEncoded` | matching/views.py:199-200 | when the skill classes have no surrounding white space, every explained skill's column is 1 in the assembled row |
| `Explanations.PaddedSkillEncodedButNotExplained` | matching/views.py:199-200 | `" Python"` with class `python` assembles to `[python = 1]` yet is absent from the explanation, because the explanation does not strip |
| `CareerCatalog.CommaList` | matching/views.py:149 | the comma fallback gives one more piece than the text has commas; piece k is the k-th comma-separated field with its surrounding white space removed |
| `CareerCatalog.ParseRequiredSkills` | matching/views.py:142-153 | non-text gives []; text decoding to a JSON list gives that list; text decoding to other JSON gives []; undecodable text gives (commas + 1) string pieces, piece k being the k-th comma-separated field with its surrounding white space removed |
| `CareerCatalog.CommaFallbackExample` | matching/views.py:144-149 | undecodable "sql, excel" parses to ["sql", "excel"] |
| `CareerCatalog.AbsentRequiredSkillsColumn` | matching/views.py:142-149 | with no `required_skills` column the default '' parses to [""] (one empty piece) |
| `CareerCatalog.FindCareerFrom` | matching/views.py:135-139 | finds the first row at or after a position whose lower-cased name equals the lower-cased career name, or reports that none does |
| `CareerCatalog.GetCareerDetails` | matching/views.py:128-162 | with no case-insensitive match the result is exactly ("No description available", [], "Not specified"); otherwise it is the details of the FIRST matching row, with `row.get` defaults for absent columns |
| `CareerCatalog.CaseInsensitiveLookup` | matching/views.py:135 | two career names equal up to case get the same details |
| `SkillAssessment.Classify` | matching/views.py:312-325 | a line is given a category only if it starts with that category's prefix, and no category when it starts with none |
| `SkillAssessment.PrefixesExclusive` | matching/views.py:314-324 | no line starts with two different prefixes |
| `SkillAssessment.ClassifyExact` | matching/views.py:314-324 | a line goes to list c iff it starts with c's prefix |
| `SkillAssessment.SecondPieceSegment` | matching/views.py:313 | a routed line's value is the text right after the first ": ", up to the next ": " or the end of the line |
| `SkillAssessment.Route` | matching/views.py:312-325 | routing fails, with the index error, exactly when some prefixed line lacks ": " |
| `SkillAssessment.RouteEntries` | matching/views.py:312-325 | a single pass that puts each line in at most one list gives exactly the result of the three comprehensions |
| `SkillAssessment.RoutePartition` | matching/views.py:312-325 | the three list sizes add up to the number of prefixed lines: each prefixed line lands in exactly one list and all others are dropped |
| `SkillAssessment.ExtractAppend` | matching/views.py:312-325 | routing keeps input order: the lists of a concatenation are the concatenated lists |
| `SkillAssessment.OfType` | matching/views.py:358-361 | a group holds exactly the skills whose type (default "Technical Skills") is that group's |
| `SkillAssessment.OfTypeAppend` | matching/views.py:358-361 | grouping keeps input order and every repetition: the group of a concatenation is the concatenation of the groups |
| `SkillAssessment.OfTypeSingle` | matching/views.py:358-361 | a single skill is in the group of its own type and in no other; with `OfTypeAppend` this fixes each group as the input filtered by type |
| `SkillAssessment.Untyped` | matching/views.py:360 | holds exactly the skills whose type is none of the five, which the grouping ignores |
| `SkillAssessment.GroupByType` | matching/views.py:349-361 | the groups have exactly the five fixed keys, and each key holds exactly the skills of that type |
| `SkillAssessment.GroupByTypeAppend` | matching/views.py:349-361 | the groups of a concatenation are the concatenated groups, so each group lists its skills in input order with every repetition |
| `SkillAssessment.GroupSizes` | matching/views.py:358-361 | every skill is counted once: the five group sizes plus the ignored skills add up to the input |
| `SkillAssessment.PercentageScores` | matching/views.py:364-374 | the scores have exactly the five keys, and a type no skill has scores 0 ("0.0%") |
| `SkillAssessment.SumScoresBounds` | matching/views.py:367 | with every score (default 0) in 0..5, a group's score sum is between 0 and 5 times its size |
| `SkillAssessment.PercentageBound` | matching/views.py:366-370 | with scores in 0..5, a group's percentage lies in 0..100 |
| `SkillAssessment.PercentageInRange` | matching/views.py:364-374 | with scores in 0..5, every one of the five percentages lies in 0..100 |
| `SkillAssessment.ProcessSkills` | matching/views.py:298-340 | a non-list or empty skills value gives the "Invalid or missing 'skills' list." error; otherwise it succeeds iff the analysis lines can all be cut; a success holds the per-type percentages of the skills list (five keys) and the strong, to-improve and missing lists routed from the analysis lines |
| `Prediction.PredictCareer` | matching/views.py:170-220 | fails with the assembler's error iff assembly fails; otherwise returns a valid top-3 of the classifier's probabilities and fails iff a selected index has no target class (never when there are no more probabilities than classes); on success recommendation i names the class at the i-th selected index with its probability, carries its own catalog details, and all carry the same explanation |
| `Prediction.RecommendationsRanked` | matching/views.py:185-190 | recommendations built from a top-3 selection number min(3, number of probabilities), never increase in probability, start with a most probable class, and no class left out is more probable than any recommended one |

## Left out

- Artifact and dataset loading (`load_models`, `load_career_dataset`). These are file I/O with joblib and pandas. The encoders, schema and catalog are parameters.
- The classifier (`model.predict_proba`) is foreign code. It is a function parameter from the feature row to a probability vector.
- `matchScore = round(float(probability) * 1000)`. This is float rounding. A recommendation carries the raw probability instead.
- Percentage formatting (`f"{percentage:.1f}%"`). The model computes the percentage as an exact real. Float rounding and the string form are omitted.
- `json.loads` is not specified. It is an oracle parameter, and its exceptions are `None`.
- Python's Unicode `lower`/`strip` is modelled for ASCII only. White space means space, `\t` to `\r`, and 0x1C to 0x1F.
- Request fields of other shapes are not modelled, because `UserInput` holds only absent values, strings and lists of strings. In the source:
  - a non-string entry of the `skills` or `interests` list, or a non-string `education`, raises `AttributeError`;
  - a number or null in place of the `skills` or `interests` list raises `TypeError`;
  - a string in place of that list is iterated character by character and raises nothing.
- Non-dict skill entries and non-numeric scores in `process_skills` also raise; the skill item type excludes them.
- The Django/DRF plumbing is omitted: request parsing, the 405 and 500 responses, CSRF and auth decorators, `JobViewSet`, `trigger_scraping`, `get_brighter_monday_jobs`, `register_user`, `home`, `get_skills` and `recommend_careers`. These are framework code or fixed constants.
- `recommend_learning` is omitted. It iterates a set in unspecified order and calls the foreign `generate_dynamic_learning_links`.
- `get_learning_resources` is foreign, so the assessment result has no `learning_recommendations`. `identify_skill_gaps` is foreign too, and is a function parameter.
- From `submit_assessment`, the response formatting, the 400/500 mapping and the `UserAssessment` database write are omitted.
- The key order of the `percentage_scores` dict is not modelled, because a Dafny map is unordered.
- All `print` logging is omitted.
- Ranking.TopIndices: among equal probabilities it picks the lowest index first, while `argsort` leaves that order open. The contract (`IsTopK`) leaves tie order open as well.
