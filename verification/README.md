# DND Item Manager core, modelled in Dafny

This project models the core of an Android and Kotlin-multiplatform client for a tabletop-game item
catalog and player-character inventories. The core has three parts.

- **Domain records** (`services/dnd.kt`, `services/Utils.kt`). Catalog items and characters override
  `equals`/`hashCode` so that identity is the `id` field alone. A `FormField` reduces a value and a
  rule to a verdict. A character is valid when its name, race and class are not blank and its level
  is in 1..20. The hashes are modelled concretely, as JVM `String.hashCode` with 32-bit wrap-around.
  `isBlank` is modelled with Kotlin's own whitespace set.
- **Legacy character** (`views/characters/Characters.kt`). This older record has an integer id, no
  race and three field rules. It keeps the data-class structural `equals`/`hashCode`.
- **View model** (`viewmodels/DNDApi.kt`), in two parts:
  - the character roster of `DNDApiViewModel`: lookup, update-or-create, removal and inventory
    replacement. This is a class over a `seq<Character>`, with one specification function per
    operation.
  - the request-state machine `AsyncStateHandler`. This is a class whose state record is updated step
    by step, as `_uiState.update` does. Coroutine jobs are objects that can be cancelled.

Files: `wrappers.dfy` (Option, Result), `form_field.dfy`, `dnd.dfy`, `legacy_character.dfy`,
`roster.dfy`, `async_state.dfy`.

Inputs that the code takes from outside are parameters:
- the random UUID of `updateOrCreateCharacter` is `freshId`;
- the remote request's result is a `RequestOutcome` handed to `ResumeJob`;
- how the `onComplete` callback ends is a `CallbackOutcome`;
- whether a failed response's body can be read is a `BodyRead`.

In these places the code is weaker than one might expect, and the model follows it:
- `updateOrCreateCharacter` performs no validation. Only the dialogs check `isValid` before they
  submit.
- `addItemsToCharacterInventory` with an unknown id is not a no-op. On a writable roster
  `indexOfFirst` gives -1 and `list[-1]` throws; on the initial read-only roster the cast to
  `MutableList` throws first. The model returns `Failure(IndexOutOfBounds(-1))` and leaves the roster unchanged.
- Only the job recorded in the current state is cancelled; nothing tags requests. A cancelled job's
  `CancellationException` is caught like any other exception (see Findings).
- The four flags are independent booleans. `isSuccessful` or `isFailed` is set before `isLoading`
  is cleared.

## Model

| member | source | states |
|---|---|---|
| `FormFields.Of` | shared/src/commonMain/kotlin/com/gnovack/dnditemmanager/services/Utils.kt:4-5 | the verdict is exactly `rule(value)`, computed once when the field is built |
| `FormFields.OnlyTheVerdictIsKept` | shared/src/commonMain/kotlin/com/gnovack/dnditemmanager/services/Utils.kt:4-5 | two fields are indistinguishable through `isValid` iff their rules gave the same answer: neither value nor rule is retained, and no check of its own is added |
| `Dnd.IsBlankIff` | shared/src/commonMain/kotlin/com/gnovack/dnditemmanager/services/dnd.kt:146-157 | blank iff every character is whitespace (so empty is blank); not blank iff some character is not whitespace |
| `Dnd.NewItem` | shared/src/commonMain/kotlin/com/gnovack/dnditemmanager/services/dnd.kt:107-115 | an item built from an id alone has that id and every optional field null |
| `Dnd.ItemIdentity` | shared/src/commonMain/kotlin/com/gnovack/dnditemmanager/services/dnd.kt:116-127 | items are equal iff ids are equal, ignoring name, rarity, source, description and imageUrl; equal items hash alike; null, characters and foreign objects are never equal to an item |
| `Dnd.ItemEqualityIsEquivalence` | shared/src/commonMain/kotlin/com/gnovack/dnditemmanager/services/dnd.kt:116-123 | item equality is reflexive, symmetric and transitive |
| `Dnd.NewCharacter` | shared/src/commonMain/kotlin/com/gnovack/dnditemmanager/services/dnd.kt:130-145 | a character built with defaults has a null id, an empty inventory, no avatar and no ability scores |
| `Dnd.CharacterIdentity` | shared/src/commonMain/kotlin/com/gnovack/dnditemmanager/services/dnd.kt:170-181 | characters are equal iff ids are equal (two null ids are equal), whatever the other fields; equal characters hash alike; a null id hashes to 0 |
| `Dnd.CharacterEqualityIsEquivalence` | shared/src/commonMain/kotlin/com/gnovack/dnditemmanager/services/dnd.kt:170-177 | character equality is reflexive, symmetric and transitive |
| `Dnd.TextFieldsRejectBlank` | shared/src/commonMain/kotlin/com/gnovack/dnditemmanager/services/dnd.kt:146-157 | the name, race and class fields are valid iff their text has a non-whitespace character |
| `Dnd.LevelFieldRange` | shared/src/commonMain/kotlin/com/gnovack/dnditemmanager/services/dnd.kt:158-161 | the level field is valid iff 1 <= level <= 20; 0 and 21 are rejected |
| `Dnd.IsValidIff` | shared/src/commonMain/kotlin/com/gnovack/dnditemmanager/services/dnd.kt:162-168 | a character is valid iff all four rules hold |
| `Dnd.ValidityIgnoresOtherFields` | shared/src/commonMain/kotlin/com/gnovack/dnditemmanager/services/dnd.kt:162-168 | validity does not depend on id, avatar, ability scores or inventory |
| `LegacyCharacters.NewCharacter` | androidApp/src/main/java/com/gnovack/dnditemmanager/android/views/characters/Characters.kt:9-16 | a legacy character built with defaults has a null id and an empty inventory |
| `LegacyCharacters.IsValidIff` | androidApp/src/main/java/com/gnovack/dnditemmanager/android/views/characters/Characters.kt:17-30 | valid iff name and class each have a non-whitespace character and level is in 1..20; no race rule |
| `LegacyCharacters.AgreesWithSharedValidator` | androidApp/src/main/java/com/gnovack/dnditemmanager/android/views/characters/Characters.kt:29-30 | the shared validator accepts exactly what the legacy one accepts, with a non-blank race added |
| `LegacyCharacters.EqualityIsStructural` | androidApp/src/main/java/com/gnovack/dnditemmanager/android/views/characters/Characters.kt:9-16 | equal iff id, name, class, level and inventory all match, with items matched by id; the same id with another name is not equal |
| `LegacyCharacters.ItemListHashRespectsEquality` | androidApp/src/main/java/com/gnovack/dnditemmanager/android/views/characters/Characters.kt:15 | item lists that are equal element by element (by id) have the same `List.hashCode` |
| `LegacyCharacters.HashRespectsEquality` | androidApp/src/main/java/com/gnovack/dnditemmanager/android/views/characters/Characters.kt:9-16 | the generated `hashCode` agrees on equal legacy characters |
| `Roster.FirstIndexOf` | androidApp/src/main/java/com/gnovack/dnditemmanager/android/viewmodels/DNDApi.kt:110-115 | -1 iff no entry has the id; otherwise an entry with the id, and no earlier entry has it |
| `Roster.DNDApiViewModel.ScanForId` | androidApp/src/main/java/com/gnovack/dnditemmanager/android/viewmodels/DNDApi.kt:138 | the linear scan returns the first index with the id, or -1 |
| `Roster.DNDApiViewModel.constructor` | androidApp/src/main/java/com/gnovack/dnditemmanager/android/viewmodels/DNDApi.kt:99 | the roster starts empty |
| `Roster.DNDApiViewModel.GetCharacterById` | androidApp/src/main/java/com/gnovack/dnditemmanager/android/viewmodels/DNDApi.kt:110-112 | none iff no entry has the id; otherwise the first entry with that id |
| `Roster.DNDApiViewModel.UpdateOrCreateCharacter` | androidApp/src/main/java/com/gnovack/dnditemmanager/android/viewmodels/DNDApi.kt:114-130 | the new roster is `UpsertList` of the old one and the result is `Upserted` (see the lemmas below) |
| `Roster.DNDApiViewModel.RemoveCharacters` | androidApp/src/main/java/com/gnovack/dnditemmanager/android/viewmodels/DNDApi.kt:132-134 | the new roster is `Without` of the old one and the given characters |
| `Roster.DNDApiViewModel.AddItemsToCharacterInventory` | androidApp/src/main/java/com/gnovack/dnditemmanager/android/viewmodels/DNDApi.kt:136-145 | succeeds iff `SetInventory` does, and the new roster is its value; on an unknown id it fails with index -1 and the roster is unchanged |
| `Roster.UpsertAppends` | androidApp/src/main/java/com/gnovack/dnditemmanager/android/viewmodels/DNDApi.kt:117-119 | with no entry of that id: appended after the unchanged roster, length + 1, and the returned character has an id (the fresh one iff it had none) |
| `Roster.UpsertReplacesInPlace` | androidApp/src/main/java/com/gnovack/dnditemmanager/android/viewmodels/DNDApi.kt:120-127 | with an entry of that id: the first one is replaced in place by the character as given; length and every other entry are unchanged |
| `Roster.UpsertThenFind` | androidApp/src/main/java/com/gnovack/dnditemmanager/android/viewmodels/DNDApi.kt:114-130 | with a fresh id, a lookup of the returned character's id finds exactly that character |
| `Roster.UpsertThenEditKeepsSize` | androidApp/src/main/java/com/gnovack/dnditemmanager/android/viewmodels/DNDApi.kt:114-130 | creating and then upserting an edited copy with the returned id replaces it without growing the roster |
| `Roster.UpsertKeepsIdsDistinct` | androidApp/src/main/java/com/gnovack/dnditemmanager/android/viewmodels/DNDApi.kt:114-130 | with a fresh id, a roster whose ids are present and distinct stays so |
| `Roster.WithoutDistributes` | androidApp/src/main/java/com/gnovack/dnditemmanager/android/viewmodels/DNDApi.kt:132-134 | removal distributes over concatenation, so kept entries stay in their original order |
| `Roster.WithoutMembership` | androidApp/src/main/java/com/gnovack/dnditemmanager/android/viewmodels/DNDApi.kt:132-134 | an entry stays iff its id matches none of the given characters; the roster never grows |
| `Roster.WithoutNoMatchIsIdentity` | androidApp/src/main/java/com/gnovack/dnditemmanager/android/viewmodels/DNDApi.kt:132-134 | removing characters whose ids are absent is a no-op |
| `Roster.WithoutKeepsIdsDistinct` | androidApp/src/main/java/com/gnovack/dnditemmanager/android/viewmodels/DNDApi.kt:132-134 | removal keeps ids present and distinct |
| `Roster.SetInventoryFrame` | androidApp/src/main/java/com/gnovack/dnditemmanager/android/viewmodels/DNDApi.kt:136-145 | fails iff no entry has the id; otherwise only the first such entry's inventory changes, to the given list verbatim |
| `Roster.SetInventoryThenFind` | androidApp/src/main/java/com/gnovack/dnditemmanager/android/viewmodels/DNDApi.kt:136-145 | afterwards a lookup by that id finds the entry with the new inventory; ids stay distinct |
| `AsyncState.Job.Cancel` | androidApp/src/main/java/com/gnovack/dnditemmanager/android/viewmodels/DNDApi.kt:65 | cancelling marks a job cancelled unless it has already completed |
| `AsyncState.Initial` | androidApp/src/main/java/com/gnovack/dnditemmanager/android/viewmodels/DNDApi.kt:37-47 | the initial state has no data, error, body or job and every flag false |
| `AsyncState.AsyncStateHandler.constructor` | androidApp/src/main/java/com/gnovack/dnditemmanager/android/viewmodels/DNDApi.kt:47 | a handler starts in the initial state with no job launched |
| `AsyncState.AsyncStateHandler.ResetUiState` | androidApp/src/main/java/com/gnovack/dnditemmanager/android/viewmodels/DNDApi.kt:50-62 | the state becomes the reset of the previous one |
| `AsyncState.AsyncStateHandler.ExecuteRequest` | androidApp/src/main/java/com/gnovack/dnditemmanager/android/viewmodels/DNDApi.kt:64-86 | the previous job is cancelled unless it had already completed, and its completion flag is untouched; the state is reset to loading and then holds the new, running job; only that job can still be running |
| `AsyncState.AsyncStateHandler.ResumeJob` | androidApp/src/main/java/com/gnovack/dnditemmanager/android/viewmodels/DNDApi.kt:69-83 | the new state is `Resumed` of the old one; the job completes; a job that is not the current one never changes data or runs `onComplete` |
| `AsyncState.ResetForgetsPriorState` | androidApp/src/main/java/com/gnovack/dnditemmanager/android/viewmodels/DNDApi.kt:50-62 | a reset clears data, error, body and job and both outcome flags, sets loading as asked, and does not depend on the prior state |
| `AsyncState.ResumedKeepsJob` | androidApp/src/main/java/com/gnovack/dnditemmanager/android/viewmodels/DNDApi.kt:71-82 | the updates after the request never change the recorded job |
| `AsyncState.SuccessPath` | androidApp/src/main/java/com/gnovack/dnditemmanager/android/viewmodels/DNDApi.kt:70-82 | a normal completion from loading: successful, data is the result, not failed, not loading, `onComplete` invoked |
| `AsyncState.FailurePath` | androidApp/src/main/java/com/gnovack/dnditemmanager/android/viewmodels/DNDApi.kt:73-82 | an exception from loading: failed, error is the exception, no data, not loading; an error body is present only for a client-request exception, and then it is the decoded body (null for a JSON `null` body) |
| `AsyncState.OnCompleteOnlyOnSuccess` | androidApp/src/main/java/com/gnovack/dnditemmanager/android/viewmodels/DNDApi.kt:70-73 | `onComplete` is invoked iff the job was not cancelled and the request returned |
| `AsyncState.CancelledNeverWritesData` | androidApp/src/main/java/com/gnovack/dnditemmanager/android/viewmodels/DNDApi.kt:65-71 | a cancelled job leaves data and the success flag as they were |
| `AsyncState.EscapeLeavesLoading` | androidApp/src/main/java/com/gnovack/dnditemmanager/android/viewmodels/DNDApi.kt:74-82 | when a throwable escapes the `catch`, loading, failure flag and error are left as they were |
| `AsyncState.FlagsOverlapBeforeLoadingCleared` | androidApp/src/main/java/com/gnovack/dnditemmanager/android/viewmodels/DNDApi.kt:71-82 | between the success or failure update and the last update the state is both successful (or failed) and loading |
| `AsyncState.StaleCancellationCorruptsNewerRequest` | androidApp/src/main/java/com/gnovack/dnditemmanager/android/viewmodels/DNDApi.kt:65-82 | a superseded job marks the newer request failed and not loading; after the newer request succeeds the state is successful and failed at once |
| `AsyncState.StaleResumeThroughHandler` | androidApp/src/main/java/com/gnovack/dnditemmanager/android/viewmodels/DNDApi.kt:64-86 | through the handler: after two `executeRequest` calls, the superseded job's resumption and then the newer job's success leave the state successful and failed at once, with the newer data and a `CancellationException` error |
| `AsyncState.GuardedResumed` | androidApp/src/main/java/com/gnovack/dnditemmanager/android/viewmodels/DNDApi.kt:69-83 | corrected completion: a cancelled job changes nothing; a running job behaves as in the source |
| `AsyncState.GuardedLastExecuteWins` | androidApp/src/main/java/com/gnovack/dnditemmanager/android/viewmodels/DNDApi.kt:64-86 | with the guard, a stale completion leaves the newer request loading, and the newer request ends in exactly one of success and failure |

## Left out

- `DNDApiClient` (HTTP client, host and URL building, JSON naming): every request is an opaque `RequestOutcome`.
- `saveCharacterList` and `loadCharacterList` are file I/O and JSON decoding. In the source, a decode failure yields an empty roster and a missing file leaves the roster untouched.
- `setServerClientBaseUrl` and the saved `testServerUrl`: these are a build-type gate and client reconstruction.
- `useDebounce` and all Compose UI. The submit gates of the dialogs reduce to `Dnd.Character.IsValid`. The selection toggles are set insert and remove under the id equality modelled here.
- The duplicate `FormField` in the Android `Utils.kt` is identical to the shared one, and the legacy record uses `FormFields.Of` for it.
- The compare-and-set retry of `MutableStateFlow.update` and emission to observers are not modelled; the one case where the retry matters is described below. An in-place `set` hands the same list instance back to the flow; the model only keeps the list's value.
- The arguments of `executeRequest` only reach the request, so they are not modelled. The coroutine scope is not modelled either.
- With an immediate dispatcher, a request that does not suspend runs to its end before the job is recorded in the state. The resulting state is the same as `ExecuteRequest` followed by `ResumeJob`, so that ordering is not modelled separately.
- A cancellation that arrives while `e.response.body()` is suspended is covered only as an unreadable body (`BodyRead.Unreadable`), which escapes the coroutine.
- `AsyncState.AsyncStateHandler.ExecuteRequest` is one atomic step. With the main-thread immediate dispatcher, `cancel()` can resume a job that is still suspended in `request` inside the call, so its `catch` block and last update run before the reset and are wiped by it. The model does not represent that inline completion; its final state equals never resuming that job. A stale job that resumes after the reset (its response had already arrived and its continuation was queued) is `ResumeJob` on a cancelled job.
- When a stale job changes the state while the newer job is suspended in `request` inside the `update` at line 71, that `update`'s compare-and-set fails and its lambda runs again, which sends the request a second time. The model's `RequestOutcome` for the newer job stands for the outcome of the call whose result is finally stored.
- `Roster.DNDApiViewModel.UpdateOrCreateCharacter`: the source also assigns the fresh id to the caller's own object (`character.id = …`). The model returns the updated value instead and does not model that aliasing.
- `Roster.DNDApiViewModel.RemoveCharacters`: Kotlin's `minus` with an empty argument returns `toList()`, which is a read-only list for rosters of size 0 or 1. A later in-place `set` on that list would throw. The initial roster `listOf()` (DNDApi.kt:99) is read-only in the same way, so `addItemsToCharacterInventory` on it fails with a `ClassCastException` at the cast on line 140, whatever the id. The model treats the roster list as always writable: on the initial roster it reports `IndexOutOfBounds(-1)` for an unknown id and performs the update for a known one. The UI only removes a non-empty selection.
- Characters are Unicode code points. `String.hashCode` is taken over their UTF-16 encoding. `isBlank` is checked per code point, which agrees with the per-unit check because no surrogate is whitespace.
- A JSON error body is kept as an uninterpreted map of member name to raw text.

## Findings

| source | as written | input that shows it | evidently intended | confidence | as-written member | corrected member |
|---|---|---|---|---|---|---|
| androidApp/src/main/java/com/gnovack/dnditemmanager/android/viewmodels/DNDApi.kt:73-82 | `catch (e: Exception)` also catches the `CancellationException` of a job that a newer `executeRequest` cancelled. Lines 79 and 82 then update the state, which now belongs to the newer request. | the first request's response has arrived and its continuation is queued on the main thread when a second `executeRequest()` runs; the first job then resumes cancelled after the reset, and the second request returns `v` (because of the compare-and-set retry at line 71, the request is sent a second time and `v` is that call's result) | the cancelled completion is dropped: the state stays loading, then ends successful with data `v` and not failed | high; not executed | `AsyncState.StaleCancellationCorruptsNewerRequest` | `AsyncState.GuardedLastExecuteWins` |
