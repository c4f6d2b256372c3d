# evoRoutine — a verified model of the training engine and its companions

evoRoutine is a browser fitness app. This project models its decision-making
core in Dafny and proves properties of that model.

- **Training engine** (`script.js`):
  - the exercise catalog (`CATALOG`), including custom exercises written into it;
  - the starting targets (`Trainer.getStartParams`);
  - the history lookup (`Store.lastLog`);
  - the progressive-overload and deload rule keyed on the last RPE (`Trainer.getSmartTargets`);
  - the routine generator (`Trainer.generateRoutine`): a muscle-group schema from goal and level, a primary filter, a three-entry fallback sorted by tier, fixed defaults, and a random pick;
  - the user store (`Store.saveUser` / `deleteUser`);
  - the `App` object's session and plan state: the equipment gate of `generate`, `selectExercise`, `removeExercise`, `saveCustomExercise`, `finishSet`, `adjustTimer`, `updateSettings` and `toggleTheme`.
- **Daily-task app** (`app.js`): tasks generated from the routines due today, completion toggling with its history, the two delete filters, saving a task or routine, and the score, streak and improvement counts.
- **Translation service** (`i18n.js`): lookup with a key fallback, `{name}` parameter substitution, and a guarded language switch.
- **First-run tutorial** (`tutorial.js`): a six-slide state machine with a persisted completed flag.
- **Theme toggle** (`theme-toggle.js`).

How the source's features map onto the model:

- The catalog is a `Table` of keys plus entries. The keys keep `Object.keys` order, which decides the order of filtering, sorting and `slice(0, 3)`.
- State that the source updates in place becomes a class: `Exercises.Catalog`, `Store.UserStore`, `Session.App`, `Daily.EvoRoutineApp`, `Localization.I18n` and `Onboarding.Tutorial`. Each method's contract states the new state in full. It is stated either through a specification function whose properties are proved as lemmas (`Registered`, `ApplyCustom`, `Upserted`, `Deleted`, `IsRoutine`, `Removed`, `Recorded`, `Substitute`, `Materialized`, `Filter`), or directly as field values where the source only sets fields (the tutorial's slide and flags, the session cursor, the rest timer, the selected row, the language).
- `Math.random` becomes a nondeterministic choice of an index into the available list (`:|`). Generated ids and timestamps are arbitrary values. The current day, weekday and instant are parameters.
- Loads and targets are exact `real`s.

Modules, in dependency order: `Wrappers`, `Seqs`, `Exercises`, `Model`, `Trainer`, `Routine`, `Store`, `Session`, `Daily`, `Localization`, `Onboarding`.

## Model

| member | source | states |
|---|---|---|
| Seqs.Filter | app.js:443 | `Array.prototype.filter`: the result keeps exactly the elements that satisfy the predicate, and is never longer |
| Exercises.BuiltIn | script.js:212-242 | the catalog table lists the 24 ids in declaration order, and each id maps to its declared muscle, mode, tier and equipment |
| Exercises.BuiltInIdsDistinct | script.js:212-242 | the 24 catalog ids are pairwise distinct, with one definition each |
| Exercises.BuiltInValid | script.js:212-242 | the built-in catalog is well-formed (distinct keys, exactly the entry ids) and holds every fixed per-muscle default |
| Exercises.AllowListDeclaresReq | script.js:340 | each of `curl`, `lunge`, `row`, `ohp` declares equipment, so the home allow-list for entries without equipment never applies to the built-in catalog |
| Exercises.Registered | script.js:926-930 | `CATALOG[id] = e`: the entry is overwritten or added; an existing id keeps its position, a new id goes last; the table stays well-formed |
| Exercises.CustomEntry | script.js:886-890 | a custom entry has no tier and no equipment, keeps its mode, and a missing muscle becomes `custom` |
| Exercises.ApplyCustom | script.js:883-893 | replaying custom exercises keeps the table well-formed and keeps the fixed defaults present |
| Exercises.ApplyCustomEntries | script.js:883-893 | after the replay, the entries are the old ones overridden by the custom list, with the last definition per id winning |
| Exercises.ApplyCustomKeys | script.js:883-893 | replaying ids that are already in the catalog leaves the key order unchanged |
| Exercises.ApplyCustomIdempotent | script.js:883-893 | replaying the same custom list twice (logging in again) gives the same catalog as replaying it once |
| Exercises.CreateMatchesReload | script.js:926-930 | registering a newly created custom exercise gives the catalog that the next login's replay of the extended list rebuilds |
| Exercises.Catalog.constructor | script.js:212 | the catalog object starts as the built-in table |
| Exercises.Catalog.Register | script.js:926-930 | the in-place write leaves the table equal to `Registered` of the old table |
| Exercises.Catalog.LoadCustom | script.js:883-893 | the `forEach` loop over the stored custom exercises leaves the table equal to `ApplyCustom` of the old table |
| Trainer.StartParams | script.js:246-258 | sets are 2 for beginners, 4 for advanced and 3 otherwise; time mode starts at 60 s (endurance) or 45 s, other modes at 5 (strength), 15 (endurance) or 10 reps; sets ∈ {2,3,4} and val1 > 0 |
| Trainer.FindRow | script.js:204 | `routine.find`: `None` exactly when no row has the id; otherwise a row of the routine with that id |
| Trainer.FindRowFirst | script.js:204 | the row found is the first one with the id |
| Trainer.LastLog | script.js:201-208 | `None` exactly when no session holds the id; otherwise a row with that id |
| Trainer.LastLogNewest | script.js:201-208 | the row returned is the first matching row of a session that holds the id, and no later session holds it |
| Trainer.LastLogScan | script.js:201-208 | the backwards index loop returns exactly `LastLog` |
| Trainer.LastLogAppend | script.js:201-208 | after a session is appended, the lookup returns its row for every id it holds and is unchanged for the others |
| Trainer.EffectiveRpe | script.js:271 | a missing or empty RPE counts as `'2'` |
| Trainer.FreshTargets | script.js:263-265 | without history: the start sets and val1, val2 = 20 for load and 0 otherwise, no tip |
| Trainer.Adjusted | script.js:268-288 | with a prior row: load and body modes add 1.25 (advanced) or 2.5 on RPE 1 with `tip.inc`, subtract 5 floored at 0 on RPE 4 with `tip.dec`, and otherwise copy the row; time mode adds 5 s on RPE 1 with no tip |
| Trainer.SmartTargets | script.js:261-289 | the set count is the start parameter's; the fresh targets without history, the adjusted targets of `LastLog`'s row with it |
| Trainer.SmartTargetsLoadNonNegative | script.js:268-288 | a non-negative logged load never yields a negative target load |
| Trainer.SmartTargetsAfterSession | script.js:261-289 | after a session holding the id, the next targets are adjusted from that session's row |
| Trainer.AdvancedTooEasy | script.js:274-278 | an advanced lifter whose last RPE was 1 gets +1.25 kg and the increase tip |
| Trainer.FailureDeload | script.js:279-281 | RPE 4 deloads 10 kg to 5 kg, and 3 kg to 0 (floored) |
| Routine.Tools | script.js:294 | the configured equipment, or none |
| Routine.BaseSchema | script.js:296-305 | the base schema has 5 groups for strength, 6 for endurance and 4 otherwise, and starts legs, push, pull |
| Routine.Schema | script.js:296-318 | the length is the base length +1 for advanced hypertrophy +1 at home with a rope; the base is a prefix; rope adds cardio last; advanced hypertrophy adds push; never the custom group |
| Routine.Primary | script.js:326-353 | an id is a primary candidate exactly when it is a catalog key of the slot's muscle that passes the home equipment or allow-list check, the level's tier bound and the not-yet-chosen rule |
| Routine.InsertByTier | script.js:372 | insertion adds exactly one copy of the element |
| Routine.InsertSorted | script.js:372 | insertion keeps a list sorted by descending tier |
| Routine.SortByTier | script.js:372 | the sort is a permutation of its input, sorted by descending tier |
| Routine.Matching | script.js:360-372 | the filtered catalog keys are exactly the keys of the slot's muscle that pass the home equipment check; duplicate-free for a well-formed catalog |
| Routine.Fallback | script.js:358-376 | min(3, k) distinct entries (for a well-formed catalog) taken, counted with multiplicity, from the k same-muscle entries that pass the home equipment check, sorted by descending tier; which of several equal-tier entries are kept is not stated; every excluded match ranks no higher than every kept one; non-empty whenever any entry matches |
| Routine.Default | script.js:382-398 | legs → squat_bw, push → pushup, pull → superman at home without bar or dumbbells, else pullup, cardio → jump_rope, otherwise plank |
| Routine.Available | script.js:326-398 | the list the generator picks from is never empty and holds only catalog entries |
| Routine.PickFromPrimary | script.js:326-353 | with a non-empty primary list, the pick has the slot's muscle, respects beginner tier ≤ 2 and advanced tier ≥ 2, was not chosen earlier, and at home has all its equipment |
| Routine.PickFromFallback | script.js:358-398 | with an empty primary list, the pick is a fallback entry, or the fixed default when the fallback is empty |
| Routine.DuplicateOnlyWhenForced | script.js:378-380 | an already-chosen id is picked only when the primary list is empty and every fallback candidate is already chosen |
| Routine.PlannedSlot | script.js:400-411 | a generated slot carries the smart targets (sets, val1, val2, tip) for its id and no RPE |
| Routine.GenerateRoutine | script.js:291-413 | the loop over the schema with the nondeterministic pick yields one slot per schema entry, in order, each drawn from the list available given the earlier picks |
| Routine.RoutineSlot | script.js:322-411 | slot k of a generated routine comes from the available list for schema group k and carries that id's targets |
| Routine.RoutineRepeatsOnlyWhenForced | script.js:378-380 | in a whole routine, a slot repeats an earlier id only when the generator had no unused candidate |
| Routine.BuiltInDefaultsMatch | script.js:382-398 | in the built-in catalog each default trains the group it stands in for |
| Routine.AvailableMatchesMuscle | script.js:326-398 | every available id trains the slot's muscle group |
| Routine.RoutineMuscles | script.js:296-411 | slot k of a generated routine trains schema group k |
| Routine.BuiltInStarters | script.js:212-242 | the built-in catalog has a tier-1, equipment-free gym starter for legs, push, pull and core |
| Routine.StarterPrimary | script.js:326-353 | for a beginner in the gym, a group whose starter has not been used has a non-empty primary list |
| Routine.BeginnerStartersTier | script.js:291-413 | a beginner gym routine over distinct groups with starters keeps every slot at tier ≤ 2 |
| Routine.BeginnerHypertrophyGym | script.js:291-413 | a beginner hypertrophy gym routine has 4 slots, for legs, push, pull and core in that order, each at tier ≤ 2 |
| Store.Find | script.js:179-182 | `find` by email: `None` exactly when no user has that email |
| Store.IndexOf | script.js:184-185 | `findIndex`: the first position with the email, or -1 exactly when there is none |
| Store.FindAtIndex | script.js:179-185 | `find` and `findIndex` agree |
| Store.Upserted | script.js:183-189 | an existing email is replaced in place and a new one appended; every other user is unchanged |
| Store.Deleted | script.js:190-193 | exactly the users with other emails remain |
| Store.FindAfterSave | script.js:179-189 | after a save, looking up the saved email returns the saved user |
| Store.FindOtherAfterSave | script.js:179-189 | a save does not change the lookup of any other email |
| Store.SaveKeepsEmailsUnique | script.js:183-189 | saving keeps emails unique |
| Store.SaveIdempotent | script.js:183-189 | saving the same user twice is the same as saving once |
| Store.FindAfterDelete | script.js:179-193 | after a delete, the email is gone and every other lookup is unchanged |
| Store.UserStore.constructor | script.js:175 | the store starts with no users |
| Store.UserStore.SaveUser | script.js:183-189 | the user list becomes `Upserted` of the old list |
| Store.UserStore.DeleteUser | script.js:190-193 | the user list becomes `Deleted` of the old list |
| Session.RestOf | script.js:1068 | the rest time is the configured one, or 90 when it is 0 |
| Session.ChosenSlot | script.js:946-957 | a hand-picked row is the generator's slot for that id with the tip cleared |
| Session.Removed | script.js:973-980 | `splice(i, 1)` removes exactly the row at i and keeps the others in order; out of range it changes nothing |
| Session.Displayed | script.js:1008-1023 | load mode shows (kg, reps) = (val2, val1); the other modes show (val1, val2) |
| Session.Recorded | script.js:1041-1047 | a finished set keeps the row's id, sets and tip and records the RPE with default `'2'`; time mode captures the first input as val1 and keeps val2; load mode captures (kg, reps) as val2 = first and val1 = second input; body mode captures val1, val2 in input order |
| Session.RecordDisplayedKeepsTargets | script.js:1008-1047 | recording unchanged input fields gives back the displayed targets |
| Session.TotalSets | script.js:1049-1062 | with at least one set per row, there are at least as many sets as rows |
| Session.ToggledTheme | theme-toggle.js:5 | `'dark'` becomes `'light'`; anything else, including unset, becomes `'dark'` |
| Session.ToggleTwice | theme-toggle.js:5-6 | toggling twice from `'dark'` or `'light'` restores it |
| Session.App.constructor | script.js:455-460 | no user, an empty plan, a fresh session cursor (exercise 0, set 1, rest 90), no selected row, add mode, and English screen strings (`I18n.lang`) |
| Session.App.LoadCustomCatalog | script.js:883-893 | with a user, the catalog becomes `ApplyCustom` of the old one over that user's custom list; without one, it is unchanged |
| Session.App.Generate | script.js:771-795 | at home with equipment never configured, the method asks for it and keeps the plan; otherwise (an empty list included) the plan is a generated routine; nothing else changes |
| Session.App.SaveEquipmentAndGenerate | script.js:757-769 | stores the equipment, saves the profile and plans a home routine with it |
| Session.App.OpenActionSheet | script.js:843 | remembers the row that the action sheet acts on |
| Session.App.OpenExSelector | script.js:854 | remembers whether the pick adds a row or replaces one |
| Session.App.SelectExercise | script.js:946-971 | add mode appends the chosen row; replace mode overwrites the remembered row when one is set |
| Session.App.SaveCustomExercise | script.js:907-940 | an empty name is refused with no change; otherwise the profile gains the exercise under a fresh `cust_` id, is saved, the catalog registers it, and it is selected |
| Session.App.RemoveExercise | script.js:973-980 | the plan becomes `Removed` at the remembered row |
| Session.App.StartSess | script.js:987-991 | exercise 0, set 1, rest 90 |
| Session.App.FinishSet | script.js:1032-1064 | records the set; the next set of the exercise, else the next exercise at set 1 (rest reset either way), else exactly one session appended to history and saved; saving happens exactly when no sets remain, and otherwise the remaining-set count drops by one |
| Session.App.AdjustTimer | script.js:1088-1097 | rest time moves by the delta, clamped at 0 |
| Session.App.UpdateSettings | script.js:597-615 | the four settings take the new values; saved exactly when one differs; the screen language follows a language change |
| Session.App.Register | script.js:640-662 | refused exactly when the name or the email is empty; otherwise a profile with the default settings (Spanish, dark, hypertrophy, intermediate, 90 s rest, equipment never configured) is saved, found again by its email, signed in, and its language applied |
| Session.App.Login | script.js:665-677 | succeeds exactly for a stored email; then that profile is signed in, its custom exercises are replayed into the catalog and its language applied; an unknown email changes nothing |
| Session.App.Logout | script.js:679-683 | the profile is signed out; the stored profiles and the plan stay |
| Session.App.DeleteAccount | script.js:686-703 | deletes exactly when confirmed and the typed word is `ELIMINAR` (Spanish screen) or `DELETE` (otherwise); then the profile is removed from the store, no longer found, and signed out; otherwise nothing changes |
| Session.App.ToggleTheme | theme-toggle.js:2-10 | without a user nothing changes; otherwise only the theme toggles and the profile is saved |
| Daily.DatePrefix | app.js:323 | `toISOString().split('T')[0]`: the text before the first `T` |
| Daily.DatePrefixOfDay | app.js:323 | a plain ISO day (no time part) is its own day prefix |
| Daily.RealOrDefault | app.js:643 | `parseFloat(x) \|\| 0`: a missing or zero input takes the default, any other value is kept |
| Daily.OrDefault | app.js:641-644 | `parseInt(x) \|\| d`: a missing or zero input takes the default |
| Daily.DueMembers | app.js:336-343 | a pair is due exactly when it names a listed routine and one of that routine's exercises |
| Daily.DueRunning | app.js:331-343 | the generated exercises for a weekday are exactly those of routines that are active and list that weekday (`RunsOn`) |
| Daily.Materialized | app.js:337-343 | a generated task list matches the due pairs one to one: each task is dated today, open, carries the exercise and names its routine |
| Daily.Pairs | app.js:336-343 | one (routine id, exercise) pair per exercise, in order |
| Daily.Due | app.js:331-345 | the due pairs are those of the given routines, concatenated in routine order |
| Daily.DailyGeneratedIdempotent | app.js:327-329 | running the daily generation twice on the same day adds nothing the second time |
| Daily.TaskIndex | app.js:416 | `tasks.find` by id: the first position with the id, or -1 exactly when there is none |
| Daily.OnDayPrefix | app.js:433 | for a day without a time part, `split('T')[0]` equals the day exactly when the instant starts with the day followed by `T` or nothing |
| Daily.Kept | app.js:433 | un-ticking keeps an entry exactly when it belongs to another task or its instant does not fall on the day |
| Daily.ToggleRoundTrip | app.js:420-434 | ticking a task and un-ticking it on the same day restores the history when it held no entry of that task for that day |
| Daily.Percentage | app.js:450 | 0 for no tasks, otherwise 100·c/t rounded half up |
| Daily.PercentageBounds | app.js:450 | the percentage is within 0..100, 0 for no completions and 100 when all are complete |
| Daily.DailyScore | app.js:449-450 | the score of today's tasks lies within 0..100 |
| Daily.Streak | app.js:672-673 | the count of distinct days is zero exactly for an empty history |
| Daily.StreakBounds | app.js:672-673 | the streak never exceeds the number of history entries, and is positive for a non-empty history |
| Daily.StreakSameDay | app.js:672-673 | another completion on a day already counted leaves the streak unchanged |
| Daily.Improvement | app.js:691 | `min(100, 5·completed)` |
| Daily.ImprovementMonotone | app.js:691 | more completions never lower the improvement |
| Daily.RoutineExercise | app.js:586-592 | routine exercises default to 3 sets, 12 reps, 0 weight and the configured rest |
| Daily.EvoRoutineApp.constructor | app.js:7-30 | empty lists and a 60-second rest setting |
| Daily.EvoRoutineApp.CheckAndGenerateDailyTasks | app.js:322-351 | with a task already dated today, nothing changes; otherwise one fresh open task per exercise of each active routine that runs that weekday is appended, in routine then exercise order, and earlier tasks are untouched |
| Daily.EvoRoutineApp.AddRoutineTasks | app.js:336-344 | the inner `forEach`: one open task per exercise of the routine, in order, appended after the existing tasks |
| Daily.EvoRoutineApp.ToggleTaskCompletion | app.js:415-439 | flips the first task with the id; ticking appends exactly one history entry, un-ticking removes only that task's entries of today; an unknown id changes nothing |
| Daily.EvoRoutineApp.DeleteTask | app.js:441-447 | once confirmed, exactly the tasks with other ids remain, in order |
| Daily.EvoRoutineApp.DeleteRoutine | app.js:558-564 | once confirmed, exactly the routines with other ids remain, then the daily generation runs |
| Daily.EvoRoutineApp.SaveTask | app.js:636-655 | an unnamed task is dropped; otherwise one open task for today with defaults 3 sets, 10 reps, 0 weight and 60 s rest |
| Daily.EvoRoutineApp.SaveRoutine | app.js:578-610 | an unnamed routine is dropped; otherwise one active routine with defaulted exercises is appended, then the daily generation runs |
| Localization.Lookup | i18n.js:395 | the translation when present and non-empty, otherwise the key itself |
| Localization.IndexOf | i18n.js:399 | the first position of the pattern, or -1 exactly when it does not occur |
| Localization.ReplaceFirst | i18n.js:399 | `String.replace` with a string pattern replaces only the first occurrence; text without it is unchanged |
| Localization.Substitute | i18n.js:398-400 | an empty parameter object leaves the text unchanged; the parameters are filled one after another in key order |
| Localization.PlaceholdersDisjoint | i18n.js:398-400 | two placeholders with different plain names never overlap in a text |
| Localization.ReplaceKeepsPlaceholder | i18n.js:398-400 | filling one parameter keeps every placeholder of another name |
| Localization.UnfilledPlaceholderRemains | i18n.js:398-400 | a placeholder that no parameter names survives the whole substitution |
| Localization.I18n.constructor | i18n.js:390-392 | the stored language, or `'es'` when none (or an empty one) is stored |
| Localization.I18n.T | i18n.js:394-403 | the parameter loop yields the lookup with each parameter's first placeholder filled in key order; with no parameters it is a pure lookup |
| Localization.I18n.SetLanguage | i18n.js:405-412 | succeeds exactly for a language with a table, and then switches and persists it; otherwise nothing changes |
| Localization.I18n.GetLanguage | i18n.js:414-416 | returns the current language, so after a successful switch it returns the new one |
| Onboarding.NextSlide | tutorial.js:72-73 | moves forward exactly one slide and stays within the six |
| Onboarding.PrevSlide | tutorial.js:84-86 | moves back one slide, and stays put on the first |
| Onboarding.Tutorial.constructor | tutorial.js:1-3 | inactive on slide 0, with the stored completed flag |
| Onboarding.Tutorial.HasCompleted | tutorial.js:4-6 | reads the completed flag |
| Onboarding.Tutorial.MarkCompleted | tutorial.js:7-9 | sets the completed flag and nothing else |
| Onboarding.Tutorial.Reset | tutorial.js:10-12 | clears the completed flag and nothing else |
| Onboarding.Tutorial.Show | tutorial.js:51-59 | active on slide 0 |
| Onboarding.Tutorial.Hide | tutorial.js:60-66 | inactive, slide kept |
| Onboarding.Tutorial.Skip | tutorial.js:67-70 | completed and inactive |
| Onboarding.Tutorial.Next | tutorial.js:71-82 | below the last slide, one slide forward; on the last slide, completed and inactive with the slide kept, and the hub opens exactly for a user with no sessions; the slide stays in range |
| Onboarding.Tutorial.Prev | tutorial.js:83-88 | one slide back, a no-op on slide 0; the slide stays in range |
| Onboarding.Tutorial.SetGoal | tutorial.js:89-95 | with a user, the goal is stored in the settings, the profile is saved, and the tutorial advances as `next` (one slide forward with the visibility kept, or on the last slide completed and hidden with the slide kept); without one nothing changes; the plan, session cursor, selected row, selector mode and language never change |
| Onboarding.Tutorial.CheckAndShow | tutorial.js:152-156 | the tutorial is scheduled to open exactly when it is not completed |
| Onboarding.ClearCache | script.js:724-735 | once confirmed, the history is emptied and the profile saved, and the tutorial flag is cleared with the slide and visibility kept; otherwise nothing changes; the plan, cursor and language never change |

## Left out

- Rendering and the DOM are not modelled: `UI.*`, `renderPlan`, `renderSet` (apart from its input mapping), `loadHub`, the modals, routine cards, charts and insights, and the tutorial's `renderSlide`.
- `localStorage`, JSON and the simulated network (`Store._get`/`_set`, `loadState`/`saveState`, `Api.*`, export) are not modelled. The user list, the state arrays and the stored language and tutorial flag are in-memory fields.
- Of login, registration, logout, account deletion and cache clearing, the state changes are modelled (`Session.App.Register`, `Login`, `Logout`, `DeleteAccount`, `Onboarding.ClearCache`). Not modelled: the session e-mail in `localStorage` (`Store.session`), the toasts, the screen changes (`loadHub`/`loadAuth`) and the `Tutorial.checkAndShow` after login and registration. That last call is `Onboarding.Tutorial.CheckAndShow`, on a `Tutorial` the caller holds. Registration's `joined` timestamp is not a field of the model's profile.
- `Session.App.constructor` starts with an empty plan where the source's `App.activeWorkout` is `null`. In the source, adding an exercise before any plan exists would throw on `null.push`; the model appends to the empty plan instead.
- Timers are not modelled: the rest countdown of `doRest`, the `setTimeout` before the tutorial opens, and the clearing of an old interval. `Onboarding.Tutorial.CheckAndShow` reports that the tutorial is scheduled instead of opening it later.
- Clocks, randomness and ids are not modelled: `Date.now`, `new Date()`, `Math.random`, `Utils.guid` and `generateId`. They become parameters or arbitrary values. The model does not assume generated ids are unique.
- Input parsing (`parseFloat`, `parseInt`, `trim`) is not modelled. Parsed values are parameters; a missing number stands for `NaN`.
- `Daily.Percentage` uses exact half-up rounding. JavaScript's `Math.round` over a floating-point quotient can differ at exact .5 boundaries.
- `renderStats`' period filter is not modelled. Its display-only figures (chart heights, the average-hour insight, the duration estimate) are also left out.
- `createInitialRoutine` is not modelled: it depends on `ExerciseManager`, which is not part of this model.
- Replacement patterns (`$&`, `$1`) inside parameter values of `I18n.t` are not modelled. Values are inserted literally.
- The contents of the translation tables (in both `i18n.js` and `script.js`) are not modelled. They are an abstract map.
- `script.js`'s own `I18n.t` is the same lookup as `Localization.Lookup` without parameters, so it has no separate member.
- `Localization.I18n.T` requires the current language to have a table. A stored language without one makes `t` throw in the source, and that error path is not modelled.
- A history session shares its `routine` array with `activeWorkout` in the source, so later edits to the plan show through. The model stores a copy.
- `Session.App.SelectExercise` requires a replace index below the plan length. Past the end, the source would write into a hole of the array.
- The source's last-resort `squat_bw` default after the per-muscle defaults can never run, because every muscle already has a default. The model has no such branch.
- `Routine.TierKey` sorts an entry without a tier as tier 0. The source's comparator yields `NaN` for such an entry, which the sort reads as "equal", so the comparator is inconsistent and the resulting order is unspecified. Only custom entries lack a tier. The app itself only creates custom exercises in the custom group, which no schema slot asks for (`saveCustomExercise`, script.js:917). A stored custom exercise with another muscle keeps it (`c.muscle || 'custom'`, script.js:888) and enters that group's fallback sort. There it ranks as tier 0 in the model, where the source's order is unspecified.
- `Daily.EvoRoutineApp.SaveRoutine` takes the parsed exercise rows as a parameter. In app.js, `saveRoutine` reads the rows from `.routine-exercise-item` elements (app.js:585), but `addExerciseFieldToRoutineModal` creates them with the class `exercise-item` (app.js:615). Unless the page markup holds other such elements, a saved routine therefore gets no exercises. The markup is not part of this model, so whether the list can be non-empty is not captured.
- `Session.TotalSets` and the remaining-set count of `Session.App.FinishSet` assume each row has at least one set (`CursorOk`). For other rows, FinishSet still states every transition.
