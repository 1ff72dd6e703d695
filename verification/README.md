# Task-list store: a Dafny model

This project models the task-collection layer of a single-page to-do list
written in TypeScript/React. The model covers:

- the `Task` record;
- the four list transformations the app component applies to its collection
  (add, edit, delete, toggle status), each inside a React state updater;
- the task form's draft;
- the copy of the collection in browser local storage, which is rewritten
  after every change.

Every operation is a pure function over `seq<Task>`. The random id and the
creation timestamp are passed in as parameters.

Files and modules:

- `tasks.dfy`, module `Tasks`: the record, the draft, and predicates over a
  collection (`Ids`, `HasId`, `UniqueIds`, `CountId`, `IsSubsequence`).
- `task_list.dfy`, module `TaskList`: `ToggleStatus`, `AddTask`, `EditTask`,
  `DeleteById`, `ToggleById` and their lemmas.
- `task_form.dfy`, module `TaskForm`: the form fields, prefill, the submitted
  draft, and the priority selector's values.
- `app.dfy`, module `App`: the component state (collection plus the task open
  for editing), the user actions, storage load/save, and runs of actions.

Enumerations: the type file declares Portuguese values
(`'baixa'|'média'|'alta'`, `'pendente'|'completada'`). The list logic and the
card use `pending`/`completed` and `low`/`medium`/`high`. The form submits
`pending` and offers the priority values `low`, `medium` and `"alto"`; the
last is a defect recorded under "## Findings". The model uses
`Pending | Completed` and `Low | Medium | High`, the values the list logic and
the card's colour table compare against.

The model follows the code in three places where a reader might expect
otherwise:

- Edit takes its status from the draft. The form always submits
  `status: 'pending'`, so saving an edit of a completed task makes it pending
  again (`TaskForm.UnchangedEditResetsStatus`).
- Add does no validation. Only the HTML `required` attributes on the title
  input and the description textarea guard the form, so the handlers have no
  validation-error path to model.
- Loading does not recover from a corrupt blob. `JSON.parse` would throw and
  nothing catches it, so the model claims no such recovery.

## Model

| member | source | states |
|---|---|---|
| TaskList.ToggleStatus | src/App.tsx:78 | the result always differs from the input status (with two statuses this fixes it completely) |
| TaskList.ToggleStatusInvolution | src/App.tsx:78 | toggling a status twice returns the original status |
| TaskList.NewTask | src/App.tsx:22-27 | the new task takes the draft's title, description, priority and image, the given id and timestamp, and status pending whatever the draft said |
| TaskList.AddTask | src/App.tsx:28 | length grows by one; the head is the new pending task with the given id and createdAt; the tail is the old list unchanged |
| TaskList.AddUniqueIds | src/App.tsx:24-28 | after an add, ids are unique exactly when they were unique before and the new id was not already present |
| TaskList.Merge | src/App.tsx:37 | the spread keeps id and createdAt, takes title, description, priority and status from the draft, and keeps the image when the draft has none |
| TaskList.MergeIdempotent | src/App.tsx:37 | merging the same draft twice equals merging it once |
| TaskList.EditById | src/App.tsx:37 | length is kept; tasks with another id are unchanged; tasks with the target id become their merge with the draft |
| TaskList.EditTask | src/App.tsx:34-41 | with nothing being edited, or an id absent from the list, the list is unchanged; otherwise the id column and every createdAt are kept, tasks with another id are unchanged, and each matched task becomes its merge with the draft |
| TaskList.EditUniqueIds | src/App.tsx:37 | editing keeps ids unique exactly when they were unique |
| TaskList.EditIdempotent | src/App.tsx:37 | submitting the same draft for the same id twice equals submitting it once |
| TaskList.DeleteById | src/App.tsx:45 | no task with the id is left, and the length drops by exactly the number of tasks that carried it |
| TaskList.DeleteMembers | src/App.tsx:45 | a task is in the result exactly when it was in the list with another id |
| TaskList.DeleteKeepsOrder | src/App.tsx:45 | the result is a subsequence of the list: the survivors keep their relative order |
| TaskList.DeleteAbsent | src/App.tsx:45 | deleting an absent id leaves the list unchanged |
| TaskList.DeleteUniqueLength | src/App.tsx:45 | with unique ids, a delete shortens the list by one when the id is present and leaves its length alone otherwise |
| TaskList.DeleteIdempotent | src/App.tsx:45 | deleting the same id twice equals deleting it once |
| TaskList.DeleteAppend | src/App.tsx:45 | deletion distributes over concatenation, so the relative order of the survivors is kept |
| TaskList.DeleteUniqueHead | src/App.tsx:45 | with unique ids, deleting the first task's id yields the rest of the list |
| TaskList.DeleteUniqueRemovesOne | src/App.tsx:45 | with unique ids, deleting the id at position k yields the list without position k |
| TaskList.DeleteUniqueIds | src/App.tsx:45 | deleting keeps unique ids unique |
| TaskList.ToggleById | src/App.tsx:50-52 | length and id column are kept; tasks with another id are unchanged; a matching task differs only in status, and that status is flipped |
| TaskList.ToggleUniqueIds | src/App.tsx:50-52 | toggling keeps ids unique exactly when they were unique |
| TaskList.ToggleAbsent | src/App.tsx:50-52 | toggling an absent id leaves the list unchanged |
| TaskList.ToggleTwice | src/App.tsx:50-52 | toggling the same id twice restores the original list |
| TaskList.ToggleCommutes | src/App.tsx:50-52 | toggling two ids gives the same list in either order |
| TaskForm.Prefill | src/components/TaskForm.tsx:16-22 | opening a task for edit copies its title, description and priority into the form |
| TaskForm.Submit | src/components/TaskForm.tsx:26-31 | the submitted draft carries the form's three fields, status pending and no image |
| TaskForm.AfterSubmit | src/components/TaskForm.tsx:32-36 | after an add the form is cleared to empty texts and medium priority; after an edit it keeps its fields |
| TaskForm.PriorityName | src/components/TaskCard.tsx:13-17 | every priority's text value is a key of the card's colour table |
| TaskForm.PriorityNameInjective | src/components/TaskCard.tsx:13-17 | two priorities have the same text value exactly when they are the same priority |
| TaskForm.ParsePriority | src/components/TaskCard.tsx:13-17 | a value reads as a priority exactly when that priority's name equals it |
| TaskForm.ParsePriorityName | src/components/TaskCard.tsx:13-17 | each priority's name reads back as that priority |
| TaskForm.AsWrittenHighOptionNamesNoPriority | src/components/TaskForm.tsx:85-87 | the third option's value as written, "alto", names no priority |
| TaskForm.SelectorValuesArePriorities | src/components/TaskForm.tsx:85-87 | with the corrected values, each option names a priority and each priority has an option |
| TaskForm.ChoosePriority | src/components/TaskForm.tsx:80 | picking an option of the corrected selector sets the priority it names and leaves the texts alone |
| TaskForm.UnchangedEditResetsStatus | src/components/TaskForm.tsx:26-31 | saving an untouched edit form returns the task with only its status reset to pending |
| TaskForm.FormEditSetsPending | src/App.tsx:37 | an edit with a form draft leaves every matched task pending, with its id, createdAt and image kept |
| App.Load | src/App.tsx:67-70 | a store without the key loads as the empty list; otherwise the stored list is returned |
| App.Init | src/App.tsx:11-12 | the mounted state holds the loaded list and no task is being edited |
| App.Save | src/App.tsx:67-75 | loading after a save returns the saved collection; other keys are untouched |
| App.Start | src/App.tsx:11-17 | the mounted collection is the stored one and nothing is being edited; after the first save the store holds that collection and keeps every other key; with unique stored ids the session is consistent |
| App.Step | src/App.tsx:20-59 | a submit prepends the task built from the draft, the fresh id and the timestamp, with status pending, when nothing is open; otherwise it merges the draft into the tasks with the open task's id and leaves the others alone; submit and cancel close the form, and cancel keeps the list; delete keeps exactly the tasks with another id, in order, removing as many tasks as carried the id; toggle flips only the matching statuses; ids stay unique when an add's id is fresh |
| App.Dispatch | src/App.tsx:14-17 | the new state is the action applied to the old one; the store then holds that collection under the tasks key and every other key is untouched; consistency is preserved under fresh ids |
| App.Run | src/App.tsx:14-17 | any run of actions whose adds use fresh ids keeps ids unique and the store equal to the collection |
| App.SubmitAfterDeleteIsNoop | src/App.tsx:36-38 | submitting an edit for a task deleted meanwhile leaves the list as it is and closes the form |
| App.BuyMilkScenario | src/App.tsx:20-53 | from an empty store, add gives one pending task, toggle completes it, delete empties the list and the store |

## Left out

- Rendering, hooks scheduling, JSX components and the dark-mode theme: presentation only.
- JSON serialisation and the text blob in local storage: the store holds parsed collections. An empty-string blob, which the code reads as "no tasks", is therefore not represented.
- Corrupt-blob recovery: `JSON.parse` throws on a bad blob and the code does not catch it, so there is nothing to model.
- `crypto.randomUUID()` and `new Date().toISOString()`: foreign, nondeterministic calls. They are parameters of `Submit`, and id freshness is a hypothesis (`App.Fresh`).
- The effect that saves only when the collection object changes: `App.Dispatch` saves after every action. For actions that leave the collection alone, this rewrites the same value.
- The Portuguese values declared in the type file: no code compares against them.
- Form validation: the title input and the description textarea both carry the HTML `required` attribute (src/components/TaskForm.tsx:53 and 69). The browser, not the code, enforces it, so the model's drafts may have empty title or description. `App.BuyMilkScenario` passes an empty description straight to the handler, which the browser form would refuse.
- Images: the form never sets one, and a draft without an image keeps the task's image on edit. Whether image references should survive a reload is not modelled.
- TaskForm.ChoosePriority: models the corrected selector. The as-written cast of an arbitrary string to a priority (src/components/TaskForm.tsx:80) cannot be represented in the `Priority` type.

## Findings

| source | as written | input that shows it | evidently intended | confidence | as-written member | corrected member |
|---|---|---|---|---|---|---|
| src/components/TaskForm.tsx:87 | the "Alta" option has value `"alto"` | choose "Alta" and submit: the task's priority is `"alto"`, a key the card's colour table does not have | value `"high"`, matching the card's table | high (not executed) | TaskForm.AsWrittenHighOptionNamesNoPriority | TaskForm.SelectorValuesArePriorities |
