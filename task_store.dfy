/**
 * The client state cache: the browser-side mirror of projects, the selected project's
 * tasks and the status catalog. Each action takes the server's answer as a parameter
 * (`Received(data)`, or `Failed` when the call threw); the network call itself is not
 * modelled. Every action clears `error` first and ends with `loading` false.
 */
module TaskStore {
  import opened Wrappers
  import opened Seqs
  import opened Records

  /** A project as the client holds it; `tasksCount` is unset until the server or the client fills it in. */
  datatype ClientProject = ClientProject(id: nat, name: string, createdAt: nat, tasksCount: Option<nat>)

  function HasClientId(id: nat): ClientProject -> bool { (p: ClientProject) => p.id == id }
  function NotClientId(id: nat): ClientProject -> bool { (p: ClientProject) => p.id != id }

  /** What an awaited API call produced. */
  datatype Response<T> = Received(data: T) | Failed

  /** How an action that re-throws ends: with its return value, or by re-throwing the call's error. */
  datatype Outcome<T> = Returned(value: T) | Thrown

  const LoadProjectsError: string := "Erro ao carregar projetos"
  const CreateProjectError: string := "Erro ao criar projeto"
  const DeleteProjectError: string := "Erro ao deletar projeto"
  const LoadTasksError: string := "Erro ao carregar tarefas"
  const CreateTaskError: string := "Erro ao criar tarefa"
  const UpdateTaskError: string := "Erro ao atualizar tarefa"
  const DeleteTaskError: string := "Erro ao deletar tarefa"
  const LoadStatusesError: string := "Erro ao carregar statuses"

  /** JavaScript truthiness of a JSON value. */
  predicate Truthy(v: Value)
  {
    match v
    case Null => false
    case Str(s) => s != ""
    case Int(i) => i != 0
    case Bool(b) => b
  }

  /** The body `createTask` posts: the caller's fields, `project_id` set to the selection, and
      `status` the caller's when truthy, else the first catalog slug, else left out (a JSON
      body drops an `undefined` member). */
  function CreateTaskRequest(taskData: Payload, selected: Option<nat>, statuses: seq<Status>): (sent: Payload)
    ensures "project_id" in sent
    ensures selected.Some? ==> sent["project_id"] == Int(selected.value)
    ensures selected.None? ==> sent["project_id"] == Null
    ensures "status" in taskData && Truthy(taskData["status"]) ==>
      "status" in sent && sent["status"] == taskData["status"]
    ensures !("status" in taskData && Truthy(taskData["status"])) && |statuses| > 0 ==>
      "status" in sent && sent["status"] == Str(statuses[0].slug)
    ensures !("status" in taskData && Truthy(taskData["status"])) && |statuses| == 0 ==> "status" !in sent
    ensures sent - {"project_id", "status"} == taskData - {"project_id", "status"}
  {
    var withProject := taskData["project_id" := if selected.Some? then Int(selected.value) else Null];
    if "status" in taskData && Truthy(taskData["status"]) then withProject
    else if |statuses| > 0 then withProject["status" := Str(statuses[0].slug)]
    else withProject - {"status"}
  }

  /** The three ways the actions touch a cached `tasks_count`. */
  datatype CountChange = Increment | Decrement | SetTo(n: nat)

  /** `(c || 0) + 1`; `c > 0 ? c - 1 : c`; `n`. */
  function Apply(change: CountChange, c: Option<nat>): (r: Option<nat>)
    ensures change.Increment? ==> r == Some(if c.Some? then c.value + 1 else 1)
    ensures change.Decrement? && c.Some? && c.value > 0 ==> r == Some(c.value - 1)
    ensures change.Decrement? && !(c.Some? && c.value > 0) ==> r == c
    ensures change.SetTo? ==> r == Some(change.n)
  {
    match change
    case Increment => Some((if c.Some? then c.value else 0) + 1)
    case Decrement => if c.Some? && c.value > 0 then Some(c.value - 1) else c
    case SetTo(n) => Some(n)
  }

  /** `projects.find(p => p.id === id)` followed by an update of that project's count:
      only the first project with that id changes, and only its count. */
  function Recount(projects: seq<ClientProject>, id: Option<nat>, change: CountChange): (r: seq<ClientProject>)
    ensures |r| == |projects|
    ensures forall j :: 0 <= j < |r| ==>
      r[j] == projects[j].(tasksCount := r[j].tasksCount)
    ensures forall j :: 0 <= j < |r| && r[j] != projects[j] ==>
      id.Some? && FirstIndex(projects, HasClientId(id.value)) == Some(j)
    ensures id.Some? && FirstIndex(projects, HasClientId(id.value)).Some? ==>
      var k := FirstIndex(projects, HasClientId(id.value)).value;
      r[k].tasksCount == Apply(change, projects[k].tasksCount)
  {
    if id.None? then projects
    else match FirstIndex(projects, HasClientId(id.value))
      case None => projects
      case Some(k) => projects[k := projects[k].(tasksCount := Apply(change, projects[k].tasksCount))]
  }

  /** The `tasksByStatus` computed: one group per catalog slug, holding the tasks with that status. */
  function GroupByStatus(tasks: seq<Task>, statuses: seq<Status>): (g: map<string, seq<Task>>)
    ensures g.Keys == set s | s in statuses :: s.slug
    ensures forall slug, i :: slug in g && 0 <= i < |g[slug]| ==> g[slug][i].status == slug && g[slug][i] in tasks
    ensures forall slug, i :: slug in g && 0 <= i < |tasks| && tasks[i].status == slug ==> tasks[i] in g[slug]
  {
    map slug | slug in (set s | s in statuses :: s.slug) :: Filter(tasks, HasStatus(slug))
  }

  /** Each group holds every task of its status exactly as often as the task list does. */
  lemma {:induction false} GroupCountsMatch(tasks: seq<Task>, statuses: seq<Status>, slug: string, t: Task)
    requires slug in GroupByStatus(tasks, statuses)
    ensures multiset(GroupByStatus(tasks, statuses)[slug])[t] == if t.status == slug then multiset(tasks)[t] else 0
  {
    FilterMultiset(tasks, HasStatus(slug));
  }

  /** A task whose status is not in the catalog shows up in no group. */
  lemma UnknownStatusUngrouped(tasks: seq<Task>, statuses: seq<Status>, t: Task)
    requires forall s :: s in statuses ==> s.slug != t.status
    ensures forall slug :: slug in GroupByStatus(tasks, statuses) ==> t !in GroupByStatus(tasks, statuses)[slug]
  {
  }

  /** Appending a task appends it to the end of its own group and leaves the other groups as
      they were: groups keep the task list's order. */
  lemma {:induction false} GroupAfterAppend(tasks: seq<Task>, statuses: seq<Status>, t: Task, slug: string)
    requires slug in GroupByStatus(tasks, statuses)
    ensures slug in GroupByStatus(tasks + [t], statuses)
    ensures GroupByStatus(tasks + [t], statuses)[slug] ==
      GroupByStatus(tasks, statuses)[slug] + (if t.status == slug then [t] else [])
  {
    FilterConcat(tasks, [t], HasStatus(slug));
  }

  class Store {
    var projects: seq<ClientProject>
    var selectedProjectId: Option<nat>
    var tasks: seq<Task>
    var statuses: seq<Status>
    var loading: bool
    var error: Option<string>

    /** The store as the page first creates it. */
    constructor ()
      ensures projects == [] && selectedProjectId == None && tasks == [] && statuses == []
      ensures !loading && error == None
    {
      projects, selectedProjectId, tasks, statuses := [], None, [], [];
      loading, error := false, None;
    }

    /** The `selectedProject` computed: the first project whose id is the selection. */
    function SelectedProject(): (r: Option<ClientProject>)
      reads this
      ensures r.Some? ==> selectedProjectId.Some? && r.value in projects && r.value.id == selectedProjectId.value
      ensures r.None? ==> selectedProjectId.None? || forall j :: 0 <= j < |projects| ==> projects[j].id != selectedProjectId.value
    {
      if selectedProjectId.None? then None
      else match FirstIndex(projects, HasClientId(selectedProjectId.value))
        case None => None
        case Some(k) => Some(projects[k])
    }

    /** `loadProjects`: replaces the project list; a failure is recorded and not re-thrown. */
    method LoadProjects(resp: Response<seq<ClientProject>>)
      modifies this
      ensures !loading
      ensures resp.Received? ==> projects == resp.data && error == None
      ensures resp.Failed? ==> projects == old(projects) && error == Some(LoadProjectsError)
      ensures selectedProjectId == old(selectedProjectId) && tasks == old(tasks) && statuses == old(statuses)
    {
      loading := true;
      error := None;
      if resp.Received? {
        projects := resp.data;
      } else {
        error := Some(LoadProjectsError);
      }
      loading := false;
    }

    /** `createProject`: appends the created project with a count of 0 and returns it. */
    method CreateProject(name: string, resp: Response<Project>) returns (sent: Payload, r: Outcome<ClientProject>)
      modifies this
      ensures sent == map["name" := Str(name)]
      ensures !loading
      ensures resp.Received? ==>
        var p := resp.data;
        r == Returned(ClientProject(p.id, p.name, p.createdAt, Some(0))) &&
        projects == old(projects) + [r.value] && error == None
      ensures resp.Failed? ==> r == Thrown && projects == old(projects) && error == Some(CreateProjectError)
      ensures selectedProjectId == old(selectedProjectId) && tasks == old(tasks) && statuses == old(statuses)
    {
      loading := true;
      error := None;
      sent := map["name" := Str(name)];
      if resp.Received? {
        var created := ClientProject(resp.data.id, resp.data.name, resp.data.createdAt, Some(0));
        projects := projects + [created];
        r := Returned(created);
      } else {
        error := Some(CreateProjectError);
        r := Thrown;
      }
      loading := false;
    }

    /** `deleteProject`: drops every project with that id; deleting the selected project
        clears the selection and the task list. */
    method DeleteProject(projectId: nat, resp: Response<()>) returns (r: Outcome<()>)
      modifies this
      ensures !loading
      ensures resp.Received? ==> (r == Returned(()) && error == None &&
        projects == Filter(old(projects), NotClientId(projectId)))
      ensures resp.Received? && old(selectedProjectId) == Some(projectId) ==>
        selectedProjectId == None && tasks == []
      ensures resp.Received? && old(selectedProjectId) != Some(projectId) ==>
        selectedProjectId == old(selectedProjectId) && tasks == old(tasks)
      ensures resp.Failed? ==> (r == Thrown && error == Some(DeleteProjectError) &&
        projects == old(projects) && selectedProjectId == old(selectedProjectId) && tasks == old(tasks))
      ensures statuses == old(statuses)
    {
      loading := true;
      error := None;
      if resp.Received? {
        projects := Filter(projects, NotClientId(projectId));
        if selectedProjectId == Some(projectId) {
          selectedProjectId := None;
          tasks := [];
        }
        r := Returned(());
      } else {
        error := Some(DeleteProjectError);
        r := Thrown;
      }
      loading := false;
    }

    /** `loadTasks`: selects the project before the call; on success takes the listed tasks
        and sets that project's count to their number; a failure keeps the old task list
        and is not re-thrown. */
    method LoadTasks(projectId: nat, resp: Response<seq<Task>>)
      modifies this
      ensures !loading
      ensures selectedProjectId == Some(projectId)
      ensures resp.Received? ==> (tasks == resp.data && error == None &&
        projects == Recount(old(projects), Some(projectId), SetTo(|resp.data|)))
      ensures resp.Failed? ==> tasks == old(tasks) && projects == old(projects) && error == Some(LoadTasksError)
      ensures statuses == old(statuses)
    {
      loading := true;
      error := None;
      selectedProjectId := Some(projectId);
      if resp.Received? {
        tasks := resp.data;
        projects := Recount(projects, Some(projectId), SetTo(|resp.data|));
      } else {
        error := Some(LoadTasksError);
      }
      loading := false;
    }

    /** `createTask`: posts the task for the selected project, appends the created task and
        adds one to the selected project's count. */
    method CreateTask(taskData: Payload, resp: Response<Task>) returns (sent: Payload, r: Outcome<Task>)
      modifies this
      ensures sent == CreateTaskRequest(taskData, old(selectedProjectId), old(statuses))
      ensures !loading
      ensures resp.Received? ==> (r == Returned(resp.data) && error == None &&
        tasks == old(tasks) + [resp.data] &&
        projects == Recount(old(projects), old(selectedProjectId), Increment))
      ensures resp.Failed? ==> (r == Thrown && error == Some(CreateTaskError) &&
        tasks == old(tasks) && projects == old(projects))
      ensures selectedProjectId == old(selectedProjectId) && statuses == old(statuses)
    {
      loading := true;
      error := None;
      sent := CreateTaskRequest(taskData, selectedProjectId, statuses);
      if resp.Received? {
        tasks := tasks + [resp.data];
        projects := Recount(projects, selectedProjectId, Increment);
        r := Returned(resp.data);
      } else {
        error := Some(CreateTaskError);
        r := Thrown;
      }
      loading := false;
    }

    /** `updateTask`: `updates` goes to the server unchanged; the returned task replaces the
        first cached task with that id, in place. */
    method UpdateTask(taskId: nat, updates: Payload, resp: Response<Task>) returns (r: Outcome<Task>)
      modifies this
      ensures !loading
      ensures resp.Received? ==> r == Returned(resp.data) && error == None
      ensures resp.Received? ==> match FirstIndex(old(tasks), HasTaskId(taskId))
        case None => tasks == old(tasks)
        case Some(i) => tasks == old(tasks)[i := resp.data]
      ensures resp.Failed? ==> r == Thrown && error == Some(UpdateTaskError) && tasks == old(tasks)
      ensures projects == old(projects) && selectedProjectId == old(selectedProjectId)
      ensures statuses == old(statuses)
    {
      loading := true;
      error := None;
      if resp.Received? {
        var index := FirstIndex(tasks, HasTaskId(taskId));
        if index.Some? {
          tasks := tasks[index.value := resp.data];
        }
        r := Returned(resp.data);
      } else {
        error := Some(UpdateTaskError);
        r := Thrown;
      }
      loading := false;
    }

    /** `deleteTask`: drops every cached task with that id and takes one off the selected
        project's count unless it is already 0. */
    method DeleteTask(taskId: nat, resp: Response<()>) returns (r: Outcome<()>)
      modifies this
      ensures !loading
      ensures resp.Received? ==> (r == Returned(()) && error == None &&
        tasks == Filter(old(tasks), NotTaskId(taskId)) &&
        projects == Recount(old(projects), old(selectedProjectId), Decrement))
      ensures resp.Failed? ==> (r == Thrown && error == Some(DeleteTaskError) &&
        tasks == old(tasks) && projects == old(projects))
      ensures selectedProjectId == old(selectedProjectId) && statuses == old(statuses)
    {
      loading := true;
      error := None;
      if resp.Received? {
        tasks := Filter(tasks, NotTaskId(taskId));
        projects := Recount(projects, selectedProjectId, Decrement);
        r := Returned(());
      } else {
        error := Some(DeleteTaskError);
        r := Thrown;
      }
      loading := false;
    }

    /** `loadStatuses`: replaces the status catalog; a failure is recorded and re-thrown. */
    method LoadStatuses(resp: Response<seq<Status>>) returns (r: Outcome<()>)
      modifies this
      ensures !loading
      ensures resp.Received? ==> r == Returned(()) && statuses == resp.data && error == None
      ensures resp.Failed? ==> r == Thrown && statuses == old(statuses) && error == Some(LoadStatusesError)
      ensures projects == old(projects) && selectedProjectId == old(selectedProjectId) && tasks == old(tasks)
    {
      loading := true;
      error := None;
      if resp.Received? {
        statuses := resp.data;
        r := Returned(());
      } else {
        error := Some(LoadStatusesError);
        r := Thrown;
      }
      loading := false;
    }
  }
}
