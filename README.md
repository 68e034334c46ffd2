# Task Manager Kanban — verified model of the core

A Dafny model of the Kanban task manager's core:

- **Client state cache.** The store keeps `projects`, `selectedProjectId`, `tasks`, `statuses`, `loading` and `error`. It is modelled as the class `TaskStore.Store`.
  - Every action takes the server's answer as a parameter: `Received(data)`, or `Failed` when the call threw.
  - An action that re-throws returns `Thrown`.
- **Server domain services.** The task and project services are modelled as methods that take and update a `Database.Tables`. That class holds the project, task and status tables as sequences, plus their auto-increment counters, and every method keeps its invariant `Valid()`:
  - ids are unique and below their counters;
  - status slugs are unique.

  The services' read queries are pure functions.
- **Form requests.** The three form requests are modelled as constant rule tables, and `Validation` is a small model of Laravel's rule engine:
  - `required` runs on absent and blank fields and stops the field when it fails.
  - The other rules skip a blank string.
  - `sometimes` skips an absent field, and `nullable` skips a null one.
  - The database rules `exists` and `unique` run only while the field has no failure yet, so a value already rejected by an earlier rule gets no lookup message.
  - The first failing rule comes first, and each failure selects the request's own message or the framework's default.

  Lemmas `ValidIff` restate each table as a plain predicate on the payload, both for acceptance and for an empty error bag (`Validation.Errors`).
- **Status seeder.** An `updateOrCreate`-by-slug loop over the status table. Lemmas prove that seeding is idempotent and that it keeps rows whose slug it does not seed.
- **Consistency.** Cross-layer lemmas show two things:
  - the counters the client adjusts stay equal to the counts the server lists;
  - the client's default status (the first listed status) equals the server's (least `order`) whenever the catalog is listed by `order` and one status alone has the least order.

Payloads are maps from field name to a JSON-like `Value` (`Null`, `Str`, `Int`, `Bool`). Timestamps are `nat` parameters. Route-model binding is folded into the services: an unknown project or task id gives `Err(NotFound)`.

Two behaviours of the code that the model keeps:

- **Deleting a project.** `deleteProject` (backend/app/Services/ProjectService.php:22-25) has no cascade, so `ProjectService.DeleteProject` leaves the task table as it was.
- **Switching projects.** `loadTasks` (frontend/src/stores/taskStore.js:79-98) sets the selection before the call and does not clear `tasks`, so a failed load keeps the previous project's tasks. `TaskStore.Store.LoadTasks` states this.

## Model

| member | source | states |
|---|---|---|
| TaskService.MinOrderIndex | backend/app/Services/TaskService.php:23 | a status of least `order`, the earliest one in table order among ties |
| TaskService.DefaultStatusSlug | backend/app/Services/TaskService.php:22-24 | `"pending"` when the status table is empty, else the slug of a status whose `order` is least |
| TaskService.WithDefaultStatus | backend/app/Services/TaskService.php:22-25 | a supplied non-null status is kept; an absent or null one (`isset`) becomes the default; every other field passes through unchanged |
| TaskService.TaskRow | backend/app/Services/TaskService.php:27 | a row is created iff every column value fits its type; each of its four fields holds exactly the payload's value (an omitted descricao is null), with the new id and the creation time |
| TaskService.TaskRowRoundTrip | backend/app/Services/TaskService.php:27 | creating from a task's own fields gives back that task |
| TaskService.ApplyUpdate | backend/app/Services/TaskService.php:32 | supplied fields take the supplied values, omitted fields keep theirs, id and creation time never change |
| TaskService.ApplyUpdateIdempotent | backend/app/Services/TaskService.php:32 | applying the same partial update twice equals applying it once |
| TaskService.TasksOfProject | backend/app/Services/TaskService.php:12-17 | not found iff no project has the id (route binding, backend/routes/web.php:15); otherwise newest first by `created_at`, each task of the project exactly as often as stored, no task of another project |
| TaskService.CreateTask | backend/app/Services/TaskService.php:19-28 | appends the row built from the defaulted payload under the next id, returns it, and changes no other table; the stored status is the supplied one or the default |
| TaskService.UpdateTask | backend/app/Services/TaskService.php:30-34 | unknown id is not-found; otherwise only the task's own position is rewritten, and the returned task is the stored one |
| TaskService.DeleteTask | backend/app/Services/TaskService.php:36-39 | unknown id is not-found; otherwise exactly that task is removed and every other task is kept, in order |
| ProjectService.AllProjects | backend/app/Services/ProjectService.php:10-15 | the listing is newest first, is a permutation of the projects table, and each `tasks_count` is the number of that project's tasks |
| ProjectService.AllProjectsOncePerProject | backend/app/Services/ProjectService.php:12-14 | with unique ids, every stored project is listed exactly once |
| ProjectService.FindProject | backend/app/Services/ProjectService.php:27-30 | the project with that id when one exists, nothing otherwise |
| ProjectService.CreateProject | backend/app/Services/ProjectService.php:17-20 | appends exactly one project carrying the name under the next id; existing projects and other tables unchanged |
| ProjectService.DeleteProject | backend/app/Services/ProjectService.php:22-25 | unknown id is not-found; otherwise exactly that project is removed, the others are kept in order, and the task table is untouched |
| StoreTaskRequest.TituloRule | backend/app/Http/Requests/StoreTaskRequest.php:17 | `titulo` passes iff present, a non-blank string, at most 255 characters |
| StoreTaskRequest.DescricaoRule | backend/app/Http/Requests/StoreTaskRequest.php:18 | `descricao` passes iff absent, null or a string |
| StoreTaskRequest.StatusRule | backend/app/Http/Requests/StoreTaskRequest.php:19 | `status` passes iff absent, null, blank or one of the three slugs |
| StoreTaskRequest.ProjectIdRule | backend/app/Http/Requests/StoreTaskRequest.php:20 | `project_id` passes iff present and the id of an existing project |
| StoreTaskRequest.ValidIff | backend/app/Http/Requests/StoreTaskRequest.php:14-22 | the form accepts a payload, and its error bag is empty, iff all four field rules hold |
| StoreTaskRequest.MissingTitulo | backend/app/Http/Requests/StoreTaskRequest.php:27 | a missing title reports only the form's "O título é obrigatório." |
| StoreTaskRequest.MissingProjectId | backend/app/Http/Requests/StoreTaskRequest.php:28 | a missing project id reports only "O projeto é obrigatório." |
| StoreTaskRequest.UnknownProjectId | backend/app/Http/Requests/StoreTaskRequest.php:29 | an unknown project id reports only "O projeto informado não existe." |
| UpdateTaskRequest.TituloRule | backend/app/Http/Requests/UpdateTaskRequest.php:17 | `titulo` passes iff absent, blank, or a string of at most 255 characters |
| UpdateTaskRequest.DescricaoRule | backend/app/Http/Requests/UpdateTaskRequest.php:18 | `descricao` passes iff absent, null or a string |
| UpdateTaskRequest.StatusRule | backend/app/Http/Requests/UpdateTaskRequest.php:19 | `status` passes iff absent, blank, or one of the three slugs (null fails) |
| UpdateTaskRequest.ProjectIdRule | backend/app/Http/Requests/UpdateTaskRequest.php:20 | `project_id` passes iff absent, blank, or the id of an existing project |
| UpdateTaskRequest.ValidIff | backend/app/Http/Requests/UpdateTaskRequest.php:14-22 | the form accepts a payload, and its error bag is empty, iff all four field rules hold |
| UpdateTaskRequest.AbsentFieldNeverFails | backend/app/Http/Requests/UpdateTaskRequest.php:16-21 | a field the payload leaves out never fails its rules |
| UpdateTaskRequest.EmptyPayloadValid | backend/app/Http/Requests/UpdateTaskRequest.php:16-21 | the empty payload is a valid update |
| UpdateTaskRequest.NullStatusOnlyOnCreate | backend/app/Http/Requests/UpdateTaskRequest.php:19 | a null status passes the create form's status rule and fails the update form's |
| StoreProjectRequest.ValidIff | backend/app/Http/Requests/StoreProjectRequest.php:14-19 | the form accepts, and its error bag is empty, iff the name is present, a non-blank string of at most 255 characters, and not an existing name |
| StoreProjectRequest.MissingName | backend/app/Http/Requests/StoreProjectRequest.php:24 | a missing name reports only the "obrigatório" message |
| StoreProjectRequest.TooLongName | backend/app/Http/Requests/StoreProjectRequest.php:26 | a name over 255 characters reports only the max-length message, even when it is already taken |
| StoreProjectRequest.DuplicateName | backend/app/Http/Requests/StoreProjectRequest.php:25 | a well-formed taken name reports only the uniqueness message |
| StoreProjectRequest.AcceptedNameStaysUnique | backend/app/Http/Requests/StoreProjectRequest.php:17 | storing an accepted name keeps project names pairwise distinct |
| StatusSeeder.Upsert | backend/database/seeders/StatusSeeder.php:19-22 | overwrites the row with that slug in place, keeping its id; appends under the next id only when no row has the slug; rows of other slugs unchanged; afterwards a row carries the record |
| StatusSeeder.UpsertAppends | backend/database/seeders/StatusSeeder.php:19-22 | a slug no row has is created as one new row under the next id, after all existing rows |
| StatusSeeder.UpsertKeepsTableOk | backend/database/seeders/StatusSeeder.php:19-22 | an upsert keeps ids and slugs unique |
| StatusSeeder.UpsertSettledIsNoop | backend/database/seeders/StatusSeeder.php:19-22 | upserting a record some row already carries changes nothing |
| StatusSeeder.UpsertKeepsSettled | backend/database/seeders/StatusSeeder.php:18-23 | upserting another slug keeps an earlier record in place |
| StatusSeeder.UpsertExtends | backend/database/seeders/StatusSeeder.php:19-22 | an upsert keeps every position's id and slug and every row of another slug |
| StatusSeeder.UpsertsInOrder | backend/database/seeders/StatusSeeder.php:18-23 | `run()` is the three upserts in the listed order |
| StatusSeeder.SeededTableOk | backend/database/seeders/StatusSeeder.php:18-23 | after `run()` ids and slugs are unique |
| StatusSeeder.SeededAll | backend/database/seeders/StatusSeeder.php:12-23 | after `run()` each of the three statuses is present with its listed name, color and order |
| StatusSeeder.SeededKeepsOthers | backend/database/seeders/StatusSeeder.php:18-23 | `run()` leaves rows of unseeded slugs untouched and adds only seeded slugs |
| StatusSeeder.SeedIdempotent | backend/database/seeders/StatusSeeder.php:18-23 | running the seeder twice gives the same table as running it once |
| StatusSeeder.SeedEmptyTable | backend/database/seeders/StatusSeeder.php:12-23 | on an empty table the three statuses are created in order under consecutive ids |
| StatusSeeder.SeededDefaultIsPending | backend/database/seeders/StatusSeeder.php:13-15 | after seeding, the server default status is `pending` unless an unseeded status has order 1 or less |
| StatusSeeder.UpsertStatus | backend/database/seeders/StatusSeeder.php:19-22 | the in-place `updateOrCreate` leaves the status table equal to `Upsert` and touches no other table |
| StatusSeeder.Run | backend/database/seeders/StatusSeeder.php:10-24 | the loop leaves the status table equal to `Seeded` of the old one and keeps the tables valid |
| TaskStore.CreateTaskRequest | frontend/src/stores/taskStore.js:105-111 | `project_id` is the selection (null without one); `status` is the caller's if truthy, else the first catalog slug, else omitted; other fields unchanged |
| TaskStore.Apply | frontend/src/stores/taskStore.js:157-160 | increment from an unset count gives 1; decrement only from a positive count, so a count never goes below 0; load sets the count |
| TaskStore.Recount | frontend/src/stores/taskStore.js:115-118 | only the first project with the selected id changes, and only its count |
| TaskStore.GroupByStatus | frontend/src/stores/taskStore.js:19-25 | one group per catalog slug; a group holds only tasks of that status and every such task |
| TaskStore.GroupCountsMatch | frontend/src/stores/taskStore.js:22 | each group holds each task of its status exactly as often as the task list does |
| TaskStore.UnknownStatusUngrouped | frontend/src/stores/taskStore.js:21-23 | a task whose status is not in the catalog is in no group |
| TaskStore.GroupAfterAppend | frontend/src/stores/taskStore.js:19-25 | appending a task appends it to the end of its own group only, so groups keep the list's order |
| TaskStore.Store.constructor | frontend/src/stores/taskStore.js:7-12 | empty lists, no selection, not loading, no error |
| TaskStore.Store.SelectedProject | frontend/src/stores/taskStore.js:15-17 | a project with the selected id when one is cached, else nothing |
| TaskStore.Store.LoadProjects | frontend/src/stores/taskStore.js:28-40 | success replaces the project list; failure keeps it and sets the error; not re-thrown; loading ends false |
| TaskStore.Store.CreateProject | frontend/src/stores/taskStore.js:42-57 | success appends the created project with count 0 and returns it; failure re-throws with nothing changed |
| TaskStore.Store.DeleteProject | frontend/src/stores/taskStore.js:59-77 | success removes every project with that id; deleting the selected one clears selection and tasks, otherwise both are kept |
| TaskStore.Store.LoadTasks | frontend/src/stores/taskStore.js:79-98 | the selection moves first; success takes the listed tasks and sets that project's count to their number; failure keeps the old tasks |
| TaskStore.Store.CreateTask | frontend/src/stores/taskStore.js:100-128 | sends `CreateTaskRequest`; success appends the created task and adds one to the selected project's count only |
| TaskStore.Store.UpdateTask | frontend/src/stores/taskStore.js:130-147 | success replaces only the first task with that id, or nothing when none has it, and returns the server's task |
| TaskStore.Store.DeleteTask | frontend/src/stores/taskStore.js:149-168 | success removes every task with that id, keeps the rest in order, and decrements the selected project's positive count |
| TaskStore.Store.LoadStatuses | frontend/src/stores/taskStore.js:170-183 | success replaces the catalog; failure keeps it, sets the error and re-throws |
| Consistency.ClientDefaultMatchesServer | frontend/src/stores/taskStore.js:105 | for any listing of the status table sorted by `order` (backend/app/Services/StatusService.php:12), the first status has the least order, and it is the server's default when one row alone has that order |
| Consistency.ClientDefaultTieCanDiffer | backend/app/Services/TaskService.php:23 | two rows sharing the least order can be listed so that the client's first status is not the server's default |
| Consistency.ClientDefaultCanDiffer | backend/app/Services/TaskService.php:23 | some catalog listed out of order makes the client and server defaults differ |
| Consistency.CreateKeepsCountInSync | frontend/src/stores/taskStore.js:115-118 | a count equal to the server's before a create stays equal after the server appends and the client increments |
| Consistency.DeleteKeepsCountInSync | frontend/src/stores/taskStore.js:157-160 | with unique ids, a count equal to the server's stays equal after the server deletes one of the project's tasks and the client decrements |
| Consistency.LoadedCountMatchesListing | frontend/src/stores/taskStore.js:88-91 | for a listed project the task listing is found, and the count `loadTasks` caches equals the listing's `tasks_count` |
| Consistency.NoSelectionRejected | frontend/src/stores/taskStore.js:107-111 | a create sent with no project selected always fails the creation form |
| Consistency.FilledStatusAccepted | frontend/src/stores/taskStore.js:105-110 | a status filled in from a catalog whose first slug is a task status passes the creation form's status rule |

## Left out

- **HTTP layer.** The axios client and the HTTP calls are not modelled. Each call is a `Response` parameter: `Received(data)` or `Failed`. frontend/src/api.js is not part of this model.
- **Controllers and routing.** Controllers, routing, JSON serialisation and status codes are left out. Route-model binding's 404 is folded into the services as `Err(NotFound)`.
- **Status listing.** The status service is not modelled as a function. Its ordering matters only to `Consistency.ClientDefaultMatchesServer`, which takes any rearrangement of the table sorted by `order` as the listing.
- **Tie-breaking between equal orders.** The database orders rows of equal `order` arbitrarily, both in the listing and in `orderBy('order')->first()`. `TaskService.MinOrderIndex` picks the earliest such row in table order, and `Consistency.ClientDefaultTieCanDiffer` shows the two defaults may then differ.
- **Eloquent and SQL.** Tables are sequences, so an id or a name is looked up by a linear scan. `fresh()` is the stored row itself.
  - A value that fits no column type makes creation or update fail with `StorageError`; the real database would coerce some of these values.
- **Cascade delete.** Cascade deletion of tasks is a foreign-key rule in a migration that is not part of this model, and the service code has none.
- **Concurrency.** Vue reactivity, `async` interleaving and overlapping requests are left out. Each action is atomic, so the intermediate `loading = true` is not observable.
- **Presentation and clock.** `console.error`, the styling configuration and wall-clock time are left out. Timestamps are `nat` parameters.
- **Request middleware.** The framework's middleware that trims strings and turns empty strings into null before validation is not modelled. Blank strings reach the rule engine, which skips its non-implicit rules for them.
- **Rule engine scope.** `Validation.RulePasses` checks `max` by character count on strings and lets other values through.
  - PHP's integer-to-string length (20 characters at most) never reaches 255.
  - `exists` matches `Int` values only, so a numeric string id is refused, where the framework would compare it as text.
- TaskStore.Store.UpdateTask: the `updates` body is forwarded to the server unchanged, and the contract does not mention it, because the cached state depends only on the server's answer.
- TaskStore.Store.CreateProject: the name in the response is not tied to the name sent, because the server's answer is taken as given.
