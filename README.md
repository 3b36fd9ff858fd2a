# onTrack task list controller, in Dafny

onTrack's `Crud` component is a daily to-do list. Its controller holds five
pieces of state: the draft text of the input field (`inputValue`), the
ordered pending tasks (`tasks`, each `{id, text}`), the task being edited
(`selectedTask`, or none), the completed tasks (`completedTask`, only ever
appended to) and the active tab (`currentTab`, `PENDING` or `COMPLETED`).
Its event handlers add a task, load a task into the draft for editing,
commit the edit, delete a task, move a task to the completed list and switch
tabs. Adding and editing are guarded by a duplicate test: a draft is
rejected with an alert when some pending task has the same text after both
are trimmed and lower-cased.

The model has three layers:

- `text.dfy`, module `Text`: JavaScript's `trim` (the exact ECMAScript
  whitespace and line-terminator set), `toLowerCase` on ASCII letters, and
  `Normalize`, the key the duplicate test compares. Lemmas prove the key
  ignores surrounding whitespace and letter case, and that a string trims to
  empty exactly when it is all whitespace.
- `tasks.dfy`, module `Tasks`: the `Task` record and the array operations
  the handlers use (`some`, `findIndex`, and the two `filter`s). Each is
  specified against an independent description: an existential for `some`,
  first-match for `findIndex`, subsequence plus membership for `filter`.
  Lemmas prove that the filters partition the list, and that appending a
  non-duplicate, renaming to a non-duplicate, or keeping a subsequence
  preserves the invariant "no two pending tasks share a key".
- `crud.dfy`, module `CrudComponent`: class `Crud` with the five state
  fields. Each handler is a method. Its frame (`modifies this`field`) says
  which state variables it may set, and its postcondition says what they
  become in terms of the old state. The object invariant `Valid()` holds
  after every handler: pending keys are distinct, and no pending or completed
  task has a blank text.
- `scenarios.dfy`: the duplicate-detection examples of the helper tests as
  lemmas (module `Scenarios`), and client methods on a fresh component
  (module `Sessions`): three replay interaction tests
  (onTrack/src/testSuites/Crud.test.jsx:24-36, onTrack/src/test/Crud.test.jsx:182-203
  and 284-304), and two show behaviour of the code that no test covers
  (committing an unchanged edit, updating after the edited task was deleted).

The alert becomes a returned `Outcome`: `Alert(message)` carries the source's
text, the raw draft followed by " — already in the list.". The
`Date.now()` id becomes the `id` argument of `Add`. The enabling conditions
of the AddTask and UpdateTask buttons become preconditions: the draft must
not trim to empty, and for UpdateTask a task must be selected.

Three behaviours of the code differ from what a reader of the component's
intent might expect, and the model follows the code:

- The update path tests the draft against every pending task, including
  the one being edited, not against "all tasks except the one being
  edited". Committing a task's text unchanged, or changed only in case or
  surrounding whitespace, is therefore always rejected
  (`Tasks.OwnTextIsDuplicate`, `Sessions.CommitUnchangedEdit`).
- Deleting or completing the task being edited does not clear
  `selectedTask`. A later update with a non-duplicate draft then finds no
  index (`findIndex` gives -1), and the write through `undefined` throws a
  TypeError before any state is set. The model returns the outcome
  `TypeError` and leaves the state as it was (`CrudComponent.Crud.Update`,
  `Sessions.DeleteWhileEditing`).
- The stored text is the raw draft, not the trimmed draft.

The interaction test at onTrack/src/test/Crud.test.jsx:417-432 clicks AddTask
three times without typing again. In the model the first click clears the
draft, and a blank draft disables the button. So repeating an add needs the
text typed again, and `Sessions.RepeatedAdd` does that.

## Model

| member | source | states |
|---|---|---|
| `Text.TrimStartSpec` | onTrack/src/components/Crud.jsx:15 | the result is the suffix of the input that starts at its first non-whitespace character; everything dropped is whitespace |
| `Text.TrimEndSpec` | onTrack/src/components/Crud.jsx:15 | the result is the prefix of the input that ends at its last non-whitespace character; everything dropped is whitespace |
| `Text.LowerSpec` | onTrack/src/components/Crud.jsx:15 | every character of the lower-cased string is the ASCII case fold of the character at the same position (`Lower` itself ensures the length is kept) |
| `Text.TrimEmptyIff` | onTrack/src/components/Crud.jsx:95-97 | a draft trims to "" exactly when every character is whitespace, which is when the add and update buttons are disabled |
| `Text.TrimOfTrimmed` | onTrack/src/components/Crud.jsx:15 | a text whose first and last characters are not whitespace trims to itself, so its duplicate key is its lower-cased form |
| `Text.TrimIgnoresPadding` | onTrack/src/components/Crud.jsx:15-18 | whitespace added before and after a string does not change what it trims to |
| `Text.NormalizeIgnoresPadding` | onTrack/src/components/Crud.jsx:15-18 | the duplicate key of a text is unchanged by surrounding whitespace |
| `Text.TrimLowerCommute` | onTrack/src/components/Crud.jsx:15-18 | trimming and lower-casing commute |
| `Text.NormalizeIgnoresCase` | onTrack/src/components/Crud.jsx:15-18 | texts that lower-case alike have the same duplicate key |
| `Tasks.IsDuplicate` | onTrack/src/components/Crud.jsx:13-19 | true exactly when some task's trimmed, lower-cased text equals the trimmed, lower-cased draft |
| `Tasks.FindIndex` | onTrack/src/components/Crud.jsx:51 | -1 exactly when no task has the id; otherwise the first position whose task has the id |
| `Tasks.Without` | onTrack/src/components/Crud.jsx:61 | the result keeps the tasks of the input in order (a subsequence), and holds every task whose id differs and no task with the id |
| `Tasks.WithId` | onTrack/src/components/Crud.jsx:66 | the result keeps the tasks of the input in order, and holds every task with the id and no other |
| `Tasks.FiltersPartition` | onTrack/src/components/Crud.jsx:65-69 | the two filters split the list: their multisets add up to the list's, and their lengths to its length |
| `Tasks.WithoutAbsent` | onTrack/src/components/Crud.jsx:60-63 | deleting an id no task has leaves the list as it was |
| `Tasks.SubsequenceKeepsDistinct` | onTrack/src/components/Crud.jsx:60-69 | keeping a subsequence of a list whose keys are pairwise distinct keeps them distinct, so delete and complete preserve the invariant |
| `Tasks.AppendKeepsDistinct` | onTrack/src/components/Crud.jsx:23-33 | appending a task whose text is not a duplicate keeps the keys pairwise distinct |
| `Tasks.ReplaceKeepsDistinct` | onTrack/src/components/Crud.jsx:45-55 | giving one task a text that duplicates no task, itself included, keeps the keys pairwise distinct |
| `Tasks.OwnTextIsDuplicate` | onTrack/src/components/Crud.jsx:38-48 | a task's own text is always a duplicate, so committing an edit unchanged is rejected |
| `Tasks.VariantIsDuplicate` | onTrack/src/components/Crud.jsx:13-19 | a draft that differs from a pending task's text only in case and surrounding whitespace is a duplicate |
| `Tasks.AddedIsDuplicate` | onTrack/src/components/Crud.jsx:21-35 | after a draft is appended, the same draft is a duplicate, so adding it again adds nothing |
| `CrudComponent.Crud.constructor` | onTrack/src/components/Crud.jsx:6-10 | the initial state: empty draft, no tasks, nothing selected, nothing completed, PENDING tab; the invariant holds |
| `CrudComponent.Crud.SetInput` | onTrack/src/components/Crud.jsx:91 | typing sets the draft and nothing else |
| `CrudComponent.Crud.Add` | onTrack/src/components/Crud.jsx:21-35 | with a non-blank draft: a duplicate gives the alert with the raw draft's message and leaves the tasks as they were; otherwise the raw, untrimmed draft is appended under the given id with the earlier tasks unchanged; in both cases the draft is cleared, nothing else changes, and the invariant is kept |
| `CrudComponent.Crud.BeginEdit` | onTrack/src/components/Crud.jsx:38-41 | the draft becomes the task's text and the task becomes the selection |
| `CrudComponent.Crud.Update` | onTrack/src/components/Crud.jsx:44-58 | a duplicate draft (tested against all tasks, the edited one included) gives the alert and changes nothing; a missing selected id gives TypeError and changes nothing; otherwise only the first task with the selected id gets the draft as text, keeping its id and position, then the selection and the draft are cleared; the invariant is kept |
| `CrudComponent.Crud.Delete` | onTrack/src/components/Crud.jsx:60-63 | the tasks become the old tasks without those with the id, in order; the draft, the selection and the completed list are untouched; the invariant is kept |
| `CrudComponent.Crud.Complete` | onTrack/src/components/Crud.jsx:65-69 | the completed list becomes the old one followed by the tasks with the id in their order, those tasks leave the pending list, and the multiset of pending plus completed tasks is conserved |
| `CrudComponent.Crud.SelectTab` | onTrack/src/components/Crud.jsx:102-107 | a tab button sets the tab and nothing else |
| `Scenarios.DetectsExactDuplicate` | onTrack/src/test/CrudHelpers.test.js:7-19 | "Learn React" is a duplicate of a list holding "Learn React" |
| `Scenarios.DetectsCaseInsensitiveDuplicate` | onTrack/src/test/CrudHelpers.test.js:21-32 | "LEARN REACT" is a duplicate of "Learn React" |
| `Scenarios.DetectsPaddedDuplicate` | onTrack/src/test/CrudHelpers.test.js:34-45 | "  Learn React  " is a duplicate of "Learn React" |
| `Scenarios.RejectsDifferentText` | onTrack/src/test/CrudHelpers.test.js:47-58 | "Learn Vue" is not a duplicate of "Learn React" |
| `Sessions.RepeatedAdd` | onTrack/src/testSuites/Crud.test.jsx:24-36 | adding a draft, typing it again and adding again: the first add succeeds, the second alerts, and exactly one task remains |
| `Sessions.CommitUnchangedEdit` | onTrack/src/components/Crud.jsx:38-48 | editing a task and committing the loaded text alerts, and the task, the selection and the draft stay |
| `Sessions.EditToNewText` | onTrack/src/test/Crud.test.jsx:182-203 | editing a task to a text with another key keeps its id and position, and clears the selection and the draft |
| `Sessions.DeleteWhileEditing` | onTrack/src/components/Crud.jsx:50-53 | deleting the task being edited and then committing a new text throws TypeError |
| `Sessions.CompleteOnlyTask` | onTrack/src/test/Crud.test.jsx:284-304 | ticking the only task leaves no pending tasks and puts that task in the completed list |

## Left out

- Rendering: the JSX markup, CSS classes, the 👍 prefix on completed tasks, and which list each tab displays (onTrack/src/components/Crud.jsx:71-125). The model keeps `currentTab` as state only.
- React's machinery: re-rendering, state batching and the `useCallback` memoisation of the update handler. Each handler runs as one atomic step on the latest state.
- `window.alert` is a returned `Outcome` rather than a side effect.
- `Date.now()` ids are a caller-supplied `id`. Nothing assumes ids are unique, so the model does not state that a task is never both pending and completed.
- Aliasing: the write at line 53 also changes the object held in `selectedTask`, and `completedTask.push` at line 67 bypasses the state setter. Both are modelled as ordinary sequence updates, and `selectedTask` keeps the value it was given.
- Text.LowerSpec: folds only ASCII A–Z. JavaScript's `toLowerCase` folds every Unicode letter, with some multi-character mappings.
- CrudComponent.Crud.Add: does not require that no task is selected. The AddTask button is hidden while editing (line 94), but the handler itself does not depend on the selection.
- The session-storage mirror of one variant of the component, and onTrack/src/test-utils.jsx (a router wrapper for the tests), are not part of this model.
