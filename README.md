# SerenProfe: key-rotating generation controller and planner helpers

This project models two parts of SerenProfe, a lesson-plan generator.

**The generation controller** `GeminiService` (src/lib/gemini.ts) is the first part. It holds at most one API key. With no key it asks a credential pool for one, and fails with "No hay claves API disponibles…" when the pool has none. It calls the generation provider with the held key and the prompt. A provider failure whose message contains `429`, `quota`, `Resource has been exhausted`, `API key` or `403` while a key is held is handled by rotation:
- the key is reported exhausted;
- the key is dropped;
- one attempt is counted, and the loop goes on.

Any other failure is rethrown. After `retries` rotations the call fails with the retry-limit error.

The model of the controller has three layers:
- `Gemini.Try` and `Gemini.Run` are the specification of one pass of the loop and of a whole call. They are written over a `Session`: the held key, the pool's pending replies and the provider's pending replies.
- `Gemini.Backend` is the outside world. It is a class whose queues stand for the pool and the provider, and it logs every call it receives as an `Acquire`, `Provide(key, prompt)` or `Mark(key)` event.
- `Gemini.GeminiService` is the controller. It is a class with the mutable `currentKey` field. Its `GenerateContentWithRotation` method keeps the source's `while` loop over `attempts`, and it is proved to return what `Run` returns, to leave the state `Run` leaves and to log exactly the calls `Run` lists.

The lemmas about `Run` cover:
- key reuse;
- the pool-empty path;
- the classification;
- the rotation step;
- the bounds on reports, provider calls and pool requests;
- which keys are reported, and in which order.

**The pure helpers of the planner screen** (src/App.tsx) are the second part, modelled as functions in module `Planner`:
- the inclusion toggle;
- the grade list with its fallbacks;
- the cycling loading message;
- the text shown when generation fails;
- removal of a plan from the history;
- the export file name;
- the displayed country name.

Module `Builtins` holds the JavaScript built-ins they rely on:
- `includes`, `indexOf`, `filter` and `find`;
- the truthiness of a possibly missing string;
- the `\s` class.

Two behaviours of the code are worth noting:
- A successful reply whose `text` is missing or empty returns `''` (gemini.ts line 48).
- A pool reply that is an empty string counts as no key (`!data`, gemini.ts line 11).

## Model

| member | source | states |
|---|---|---|
| Gemini.TextOrEmpty | src/lib/gemini.ts:48 | the result is empty exactly when the response text is missing or empty, and it is that text otherwise |
| Gemini.IsRotatable | src/lib/gemini.ts:54-55 | the quota-or-auth test of the `catch` block; `ClassificationIff` states exactly which messages pass it and `PoolEmptyIsFatal` that the pool-empty error does not |
| Gemini.ClassificationIff | src/lib/gemini.ts:54-55 | a failure is rotatable exactly when it has a message and one of the five markers occurs in it at some position |
| Gemini.PoolEmptyIsFatal | src/lib/gemini.ts:54-57 | the pool-empty error of line 12 contains none of the markers, so it is never rotated |
| Gemini.Catch | src/lib/gemini.ts:50-65 | the `catch` block: with a key held, a rotatable failure reports that key and drops it, anything else is rethrown; its behaviour inside a pass is stated by `TryOutcome`, `RotationStep` and `NonRotatableFailure` |
| Gemini.Try | src/lib/gemini.ts:31-65 | one pass of the loop body; `TryShape` and `TryOutcome` state its calls and how it ends, and `GeminiService.AttemptOnce` is proved to do what it says |
| Gemini.Run | src/lib/gemini.ts:28-69 | a whole call; `RunTrace`, `RunCounts`, `RunSuccess`, `NoBudget`, `KeyReuse`, `PoolEmpty`, `NonRotatableFailure`, `RotationStep`, `RotationsThenSuccess` and `AllRotationsFail` state what it does, and `GeminiService.GenerateContentWithRotation` is proved to do what it says |
| Gemini.TryShape | src/lib/gemini.ts:31-55 | one pass makes at most one pool request and one provider call, gives the provider only a non-empty key, and reports a key only right after the provider call that used it |
| Gemini.TryOutcome | src/lib/gemini.ts:48-60 | a pass that rotates has made one provider call, reports one key and leaves no key held; a pass that ends reports nothing, and a success keeps the non-empty key its provider call used |
| Gemini.RunTrace | src/lib/gemini.ts:37-59 | in a whole call the provider never gets an empty key, and every report comes right after the provider call that used that key |
| Gemini.RunCounts | src/lib/gemini.ts:28-69 | reports, provider calls and pool requests are each at most the retry budget, and a report on every attempt of the budget means the limit error |
| Gemini.RunSuccess | src/lib/gemini.ts:28-60 | a call that succeeds makes fewer reports than the budget and keeps the key its last provider call used |
| Gemini.NoBudget | src/lib/gemini.ts:28-30 | with `retries <= 0` the call throws the limit error of line 69, changes nothing and makes no call |
| Gemini.KeyReuse | src/lib/gemini.ts:33-48 | with a key held and a successful provider reply, the call makes no pool request and one provider call with that key, and the key stays held |
| Gemini.PoolEmpty | src/lib/gemini.ts:33-64 | on any attempt within the budget, the first or one after a rotation, no key held and an empty pool throw the pool-empty error after one pool request, with no provider call and no report |
| Gemini.NonRotatableFailure | src/lib/gemini.ts:33-64 | on any attempt within the budget, a failure that is not rotatable is rethrown unchanged after one provider call and no report, whether the key was already held or was just taken from the pool; in both cases that key stays held |
| Gemini.RotationThenPoolEmpty | src/lib/gemini.ts:11-64 | a held key refused with a rotatable failure is reported and dropped; when the pool then has no key and an attempt remains, the call throws the pool-empty error after exactly the calls provider, report, pool request |
| Gemini.RotationStep | src/lib/gemini.ts:57-60 | a rotatable failure while a key is held reports exactly that key once, drops it and hands the rest of the call to attempt `attempts + 1` |
| Gemini.RotationsThenSuccess | src/lib/gemini.ts:28-60 | N rotatable failures then a success, with N below the budget, return the success text after exactly N reports, one for each key used in order; there are N + 1 provider calls and the last key is kept |
| Gemini.AllRotationsFail | src/lib/gemini.ts:28-69 | rotatable failures on every attempt of the budget end in the limit error after exactly one report per attempt, one for each key in order, with no key held |
| Gemini.SecondCallReuses | src/lib/gemini.ts:33-48 | after a successful call, a second call whose provider replies successfully asks the pool for nothing and uses the kept key |
| Gemini.TwoKeyExample | src/lib/gemini.ts:27-69 | with keys K1 and K2 and a 429 refusal of K1, the call reports K1, succeeds with K2 and keeps K2; the exact call sequence is given |
| Gemini.Backend.GetValidApiKey | src/lib/gemini.ts:9 | gives the pool's next reply, consumes it and logs one pool request |
| Gemini.Backend.MarkKeyExhausted | src/lib/gemini.ts:22 | logs one report of the given key and changes no queue |
| Gemini.Backend.GenerateContent | src/lib/gemini.ts:43-46 | gives the provider's next reply, consumes it and logs one provider call with the key and the prompt |
| Gemini.GeminiService.constructor | src/lib/gemini.ts:5 | a new controller holds no key |
| Gemini.GeminiService.GetApiKey | src/lib/gemini.ts:8-17 | a truthy pool reply becomes the held key; otherwise the pool-empty error is given and the held key is left alone; exactly one pool request is made |
| Gemini.GeminiService.MarkKeyAsExhausted | src/lib/gemini.ts:20-24 | logs one report of the key and leaves no key held |
| Gemini.GeminiService.AttemptOnce | src/lib/gemini.ts:31-65 | one pass of the loop body gives the result, new state and calls that `Try` specifies |
| Gemini.GeminiService.GenerateContentWithRotation | src/lib/gemini.ts:27-70 | the call returns or throws what `Run` says, leaves the key and queues as `Run` says and logs exactly the calls `Run` lists; `retries` defaults to 3 |
| Builtins.IncludesIff | src/lib/gemini.ts:54 | `includes` is true exactly when the substring occurs at some position |
| Builtins.IncludesAnyIff | src/lib/gemini.ts:54-55 | the chain of `||`-joined `includes` tests holds exactly when one of the substrings is included |
| Builtins.IndexOf | src/App.tsx:171 | the result is -1 exactly when the element is absent, and otherwise the first position holding it |
| Builtins.Filter | src/App.tsx:204 | `filter` keeps, in order, exactly the elements that pass, each as often as in the input |
| Builtins.Find | src/App.tsx:222 | `find` gives nothing exactly when no element passes, and otherwise an element that passes with none passing before it |
| Builtins.FindFirst | src/App.tsx:222 | `find` gives the element at the first position that passes |
| Planner.ToggleInclusion | src/App.tsx:202-206 | a selected id is removed entirely, with the rest kept in order and with their counts; an unselected id is appended at the end |
| Planner.ToggleFlipsMembership | src/App.tsx:204 | toggling flips whether the id is selected and leaves every other id's membership alone |
| Planner.ToggleTwice | src/App.tsx:204 | toggling an unselected id twice gives back the original list |
| Planner.ToggleKeepsDistinct | src/App.tsx:204 | a list without repeats stays without repeats |
| Planner.AvailableGrades | src/App.tsx:133-135 | a country that is a key of the levels table gets its own list; any other gets the generic OTRO list |
| Planner.GradesNeverEmpty | src/App.tsx:134 | every country, listed or not, gets a non-empty grade list |
| Planner.GradeFallbacks | src/App.tsx:43-78 | PE, CA and the empty selection fall back to the OTRO list; the Mexican list starts with Preescolar |
| Planner.NextLoadingIndex | src/App.tsx:171-172 | the next index is always valid, and a message that is not a step moves to index 0 |
| Planner.NextLoadingMessage | src/App.tsx:170-173 | the next message is always one of the steps |
| Planner.LoadingStepsDistinct | src/App.tsx:100-107 | the six loading messages are pairwise different |
| Planner.NextStep | src/App.tsx:170-173 | in a list without repeats, step j is followed by step j + 1, and the last step by the first |
| Planner.TicksCycle | src/App.tsx:169-175 | from step j, n ticks later the message is step `(j + n) mod length` |
| Planner.LoadingCycle | src/App.tsx:100-107 | after six ticks the six loading messages come back to the one they started from |
| Planner.UnknownMessageRestarts | src/App.tsx:171-172 | the `indexOf` result -1, for a message that is not a step, leads to the first step; the screen sets the first step before the interval starts (line 152), so this branch is defensive |
| Planner.ErrorMessage | src/App.tsx:302-308 | the text shown is either the saturated-system text or starts with the error prefix |
| Planner.PrefixedIsNotSaturated | src/App.tsx:305-307 | no prefixed error text equals the saturated-system text |
| Planner.ErrorMessageCases | src/App.tsx:304-308 | the saturated-system text is shown exactly when the message contains "No hay claves"; otherwise the prefix is followed by the message, or by "Intenta de nuevo más tarde." when it is missing or empty |
| Planner.PoolEmptyStartsWithMarker | src/lib/gemini.ts:12 | the pool-empty message begins with "No hay claves" |
| Planner.PoolEmptyShowsSaturated | src/App.tsx:304-305 | the controller's pool-empty error is shown as the saturated-system text |
| Planner.LimitShowsItsMessage | src/App.tsx:307 | the controller's retry-limit error is shown as the prefix followed by its own message |
| Planner.EmptyPoolShowsSaturated | src/App.tsx:300-310 | a pass of the generation call, on any attempt, that finds no key held and the pool empty makes the screen show the saturated-system text |
| Planner.RefusedThenEmptyShowsSaturated | src/App.tsx:300-310 | a held key refused with a rotatable failure, followed by an empty pool, also makes the screen show the saturated-system text |
| Planner.DeletePlan | src/App.tsx:364-369 | a failed delete leaves the history unchanged; a successful one keeps, in order and with their counts, exactly the plans with another id |
| Planner.DeleteAbsent | src/App.tsx:367 | deleting an id no plan has leaves the history as it is |
| Planner.DeleteIdempotent | src/App.tsx:367 | a second successful delete of the same id changes nothing |
| Planner.Underscored | src/App.tsx:338 | the replaced text contains no `\s` character |
| Planner.UnderscoredIdentity | src/App.tsx:338 | the replacement leaves a text unchanged exactly when it has no `\s` character |
| Planner.UnderscoredIdempotent | src/App.tsx:338 | replacing twice gives what replacing once gives |
| Planner.UnderscoredGap | src/App.tsx:338 | a maximal run of `\s` characters at the start becomes a single `_` |
| Planner.UnderscoredJoin | src/App.tsx:338 | a maximal run of `\s` characters between a space-free word and the rest becomes a single `_` |
| Planner.ExportFilename | src/App.tsx:338 | the file name starts with `Planeacion_` and contains no `\s` character |
| Planner.FilenameVerbatim | src/App.tsx:338 | a space-free topic and grade appear verbatim, as `Planeacion_` + topic + `_` + grade |
| Planner.CountryName | src/App.tsx:222 | the displayed name is never empty, and an id that matches no country gives "el país seleccionado" |
| Planner.CountryIdsDistinct | src/App.tsx:22-32 | the country ids are pairwise different |
| Planner.ListedCountryName | src/App.tsx:222 | a listed id is shown with its own entry's name |

## Left out

- The remote procedures `get_valid_api_key` and `mark_key_exhausted` and the provider client `GoogleGenAI` are not modelled as I/O. They are oracles: queues of replies held by `Backend`. An exhausted pool queue answers with no key, and an exhausted provider queue answers with a failure that has no message.
- The answer of `mark_key_exhausted` is ignored by the source, so the model's report never fails. A failing report, which would reject the call, is not modelled.
- The `await` points and concurrent use of the shared `geminiService` instance are not modelled. The model covers one call at a time on one instance.
- The console logging and the key-prefix masking are left out; they have no effect on the outcome.
- The model name `gemini-2.5-flash` passed to the provider is not recorded in the event trace.
- The check at line 37 ("No se pudo obtener una clave API.") is not a branch of the model. After `getApiKey` returns, a key is always held, so that error cannot be thrown.
- Gemini.GeminiService.GenerateContentWithRotation: `retries` is an integer. A fractional or `NaN` argument is not modelled.
- A JavaScript error whose `message` is not a string is not modelled; a message is either a string or missing.
- Planner.AvailableGrades: inherited properties of a JavaScript object (a country id such as `constructor`) are not looked up. Only the table's own keys count.
- Planner.CountryName: the later override of the country name from the `normativa_paises` row (App.tsx lines 224-235) is remote I/O and is not modelled. Neither is the rest of `generatePlan`.
- Planner.ErrorMessage: the default text assigned at line 302 is always overwritten by one of the two branches, so it does not appear in the model.
- The loading-message lemmas take the step list as a parameter `steps`. `LoadingCycle` applies them to the six steps of `LOADING_STEPS`. The interval timer, the progress bar (floating point, `Date.now`, `requestAnimationFrame`), React state and rendering are not modelled.
- Planner.ExportFilename: only the general properties are proved. No concrete file name is worked out character by character.
- Strings are sequences of Unicode code points. JavaScript's UTF-16 code units are not modelled; no property proved here depends on the difference.
- The login screen, the admin panel, the install prompt and its hooks, the database client configuration and the service worker are outside the modelled core.
