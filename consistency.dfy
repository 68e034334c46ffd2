/**
 * How the client cache stays in step with the server: the counts the client adjusts
 * after its own creates and deletes equal the counts the server would list, and the
 * status the client fills in agrees with the server's default when the catalog is
 * listed by `order` and one status alone has the least order.
 */
module Consistency {
  import opened Wrappers
  import opened Seqs
  import opened Records
  import TaskService
  import ProjectService
  import StoreTaskRequest
  import Validation
  import TaskStore

  /** The catalog is listed in ascending `order`. */
  predicate SortedByOrder(statuses: seq<Status>)
  {
    forall i, j :: 0 <= i < j < |statuses| ==> statuses[i].order <= statuses[j].order
  }

  /** The least `order` in the status table is held by that row alone. */
  predicate LeastOrderUnique(rows: seq<Status>)
    requires |rows| > 0
  {
    forall j :: 0 <= j < |rows| && rows[j].order == rows[TaskService.MinOrderIndex(rows)].order ==>
      j == TaskService.MinOrderIndex(rows)
  }

  /** The client loads the status listing (`GET /api/statuses`), a rearrangement of the
      table's rows by `order`. Its first status has the least `order`, and when one row
      alone has that order it is the server's default. */
  lemma {:induction false} ClientDefaultMatchesServer(rows: seq<Status>, listing: seq<Status>)
    requires |rows| > 0 && multiset(listing) == multiset(rows) && SortedByOrder(listing)
    ensures |listing| > 0
    ensures listing[0].order == rows[TaskService.MinOrderIndex(rows)].order
    ensures LeastOrderUnique(rows) ==> listing[0].slug == TaskService.DefaultStatusSlug(rows)
  {
    var m := TaskService.MinOrderIndex(rows);
    assert rows[m] in multiset(listing);
    assert |listing| > 0;
    var q :| 0 <= q < |listing| && listing[q] == rows[m];
    assert listing[0] in multiset(rows);
    var j :| 0 <= j < |rows| && rows[j] == listing[0];
    assert listing[0].order <= listing[q].order;
  }

  /** When two rows share the least `order` the database may list either first, so the
      client can pick a status other than the server's default. */
  lemma ClientDefaultTieCanDiffer()
    ensures var rows := [Status(1, "Pendente", "pending", "bg-green-400", 1),
                         Status(2, "Em Andamento", "in_progress", "bg-blue-400", 1)];
      var listing := [rows[1], rows[0]];
      multiset(listing) == multiset(rows) && SortedByOrder(listing) &&
      listing[0].slug == "in_progress" && TaskService.DefaultStatusSlug(rows) == "pending"
  {
    var rows := [Status(1, "Pendente", "pending", "bg-green-400", 1),
                 Status(2, "Em Andamento", "in_progress", "bg-blue-400", 1)];
    assert TaskService.MinOrderIndex(rows[1..]) == 0;
  }

  /** Without that ordering the two defaults can differ. */
  lemma ClientDefaultCanDiffer()
    ensures var statuses := [Status(1, "Em Andamento", "in_progress", "bg-blue-400", 2),
                             Status(2, "Pendente", "pending", "bg-green-400", 1)];
      statuses[0].slug == "in_progress" && TaskService.DefaultStatusSlug(statuses) == "pending"
  {
    var statuses := [Status(1, "Em Andamento", "in_progress", "bg-blue-400", 2),
                     Status(2, "Pendente", "pending", "bg-green-400", 1)];
    assert TaskService.MinOrderIndex(statuses[1..]) == 0;
  }

  /** A client count that matches the server before a create still matches after the
      server appends the new task and the client adds one. */
  lemma {:induction false} CreateKeepsCountInSync(serverTasks: seq<Task>, t: Task, cached: Option<nat>)
    requires cached == Some(ProjectService.CountTasks(serverTasks, t.projectId))
    ensures TaskStore.Apply(TaskStore.Increment, cached) ==
      Some(ProjectService.CountTasks(serverTasks + [t], t.projectId))
  {
    FilterConcat(serverTasks, [t], OfProject(t.projectId));
  }

  /** Counting splits around one task. */
  lemma {:induction false} CountAround(a: seq<Task>, t: Task, b: seq<Task>, pid: nat)
    ensures ProjectService.CountTasks(a + [t] + b, pid) ==
      ProjectService.CountTasks(a, pid) + (if t.projectId == pid then 1 else 0) + ProjectService.CountTasks(b, pid)
  {
    FilterConcat(a + [t], b, OfProject(pid));
    FilterConcat(a, [t], OfProject(pid));
  }

  /** With unique ids, deleting by the id of task `i` removes exactly that task. */
  lemma {:induction false} DeleteRemovesOne(s: seq<Task>, i: nat)
    requires DistinctBy(s, TaskIdKey)
    requires i < |s|
    ensures Filter(s, NotTaskId(s[i].id)) == s[..i] + s[i + 1..]
  {
    var id := s[i].id;
    forall j | 0 <= j < |s| && j != i ensures NotTaskId(id)(s[j]) {
      if j < i { assert TaskIdKey(s[j]) != TaskIdKey(s[i]); } else { assert TaskIdKey(s[i]) != TaskIdKey(s[j]); }
    }
    FilterDropsOne(s, NotTaskId(id), i);
  }

  /** A client count that matches the server before a delete still matches after the server
      removes the project's task `i` (ids unique) and the client takes one off. */
  lemma {:induction false} DeleteKeepsCountInSync(serverTasks: seq<Task>, i: nat, cached: Option<nat>)
    requires DistinctBy(serverTasks, TaskIdKey)
    requires i < |serverTasks|
    requires cached == Some(ProjectService.CountTasks(serverTasks, serverTasks[i].projectId))
    ensures TaskStore.Apply(TaskStore.Decrement, cached) ==
      Some(ProjectService.CountTasks(Filter(serverTasks, NotTaskId(serverTasks[i].id)), serverTasks[i].projectId))
  {
    var s, pid := serverTasks, serverTasks[i].projectId;
    var a, b := s[..i], s[i + 1..];
    assert ProjectService.CountTasks(s, pid) == ProjectService.CountTasks(a, pid) + 1 + ProjectService.CountTasks(b, pid) by {
      assert s == a + [s[i]] + b;
      CountAround(a, s[i], b, pid);
    }
    assert ProjectService.CountTasks(Filter(s, NotTaskId(s[i].id)), pid) ==
      ProjectService.CountTasks(a, pid) + ProjectService.CountTasks(b, pid) by {
      DeleteRemovesOne(s, i);
      FilterConcat(a, b, OfProject(pid));
    }
  }

  /** The count `loadTasks` caches (the number of listed tasks) is the count the project
      listing reports for that project. */
  lemma {:induction false} LoadedCountMatchesListing(projects: seq<Project>, tasks: seq<Task>, k: nat)
    requires k < |ProjectService.AllProjects(projects, tasks)|
    ensures var row := ProjectService.AllProjects(projects, tasks)[k];
      var listing := TaskService.TasksOfProject(projects, tasks, row.project.id);
      listing.Ok? && |listing.value| == row.tasksCount
  {
    var all := ProjectService.AllProjects(projects, tasks);
    var pid := all[k].project.id;
    assert all[k].project in multiset(projects) by {
      assert all[k].project == ProjectService.Unannotated(all)[k];
    }
    var j :| 0 <= j < |projects| && projects[j] == all[k].project;
    var listed := TaskService.TasksOfProject(projects, tasks, pid).value;
    var kept := Filter(tasks, OfProject(pid));
    FilterMultiset(tasks, OfProject(pid));
    assert multiset(listed) == multiset(kept) by {
      forall t ensures multiset(listed)[t] == multiset(kept)[t] {}
    }
    assert |listed| == |multiset(listed)| == |multiset(kept)| == |kept|;
  }

  /** A task created with no project selected sends `project_id: null`, which the creation
      form always refuses. */
  lemma NoSelectionRejected(taskData: Payload, statuses: seq<Status>, ctx: Validation.Context)
    ensures !Validation.Passes(StoreTaskRequest.Rules, TaskStore.CreateTaskRequest(taskData, None, statuses), ctx)
  {
    StoreTaskRequest.ValidIff(TaskStore.CreateTaskRequest(taskData, None, statuses), ctx);
  }

  /** When the client fills in the status from a catalog whose first slug is a task status,
      the status field passes the creation form. */
  lemma FilledStatusAccepted(taskData: Payload, selected: Option<nat>, statuses: seq<Status>)
    requires !("status" in taskData && TaskStore.Truthy(taskData["status"]))
    requires |statuses| > 0 ==> statuses[0].slug in TaskStatusSlugs
    ensures StoreTaskRequest.StatusOk(TaskStore.CreateTaskRequest(taskData, selected, statuses))
  {
  }
}
