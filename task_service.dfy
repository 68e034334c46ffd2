/**
 * The task domain service: list the tasks of a project newest first, create a task
 * (filling in the default status), apply a partial update, delete a task.
 */
module TaskService {
  import opened Wrappers
  import opened Seqs
  import opened Records
  import opened Database

  /** The literal used when the status table is empty. */
  const FallbackStatus: string := "pending"

  /** The position of `Status::orderBy('order')->first()`: a status of least `order`,
      the earliest one in table order when several share it. */
  function MinOrderIndex(statuses: seq<Status>): (k: nat)
    requires |statuses| > 0
    ensures k < |statuses|
    ensures forall j :: 0 <= j < |statuses| ==> statuses[k].order <= statuses[j].order
    ensures forall j :: 0 <= j < k ==> statuses[j].order > statuses[k].order
    decreases |statuses|
  {
    if |statuses| == 1 then 0
    else
      var k := 1 + MinOrderIndex(statuses[1..]);
      if statuses[0].order <= statuses[k].order then 0 else k
  }

  /** The status a new task gets when none is supplied. */
  function DefaultStatusSlug(statuses: seq<Status>): (slug: string)
    ensures |statuses| == 0 ==> slug == FallbackStatus
    ensures |statuses| > 0 ==>
      exists k :: 0 <= k < |statuses| && statuses[k].slug == slug &&
        forall j :: 0 <= j < |statuses| ==> statuses[k].order <= statuses[j].order
  {
    if |statuses| == 0 then FallbackStatus else statuses[MinOrderIndex(statuses)].slug
  }

  /** PHP's `isset($data['status'])`: the key is present and not null. */
  predicate StatusSupplied(data: Payload)
  {
    "status" in data && !data["status"].Null?
  }

  /** The payload `createTask` inserts: a supplied status is kept, otherwise the default is filled in. */
  function WithDefaultStatus(data: Payload, statuses: seq<Status>): (r: Payload)
    ensures StatusSupplied(data) ==> r == data
    ensures !StatusSupplied(data) ==> "status" in r && r["status"] == Str(DefaultStatusSlug(statuses))
    ensures r - {"status"} == data - {"status"}
  {
    if StatusSupplied(data) then data else data["status" := Str(DefaultStatusSlug(statuses))]
  }

  /** The payload holds a value of the right column type for every column of a new task. */
  predicate InsertWellTyped(data: Payload)
  {
    && "titulo" in data && data["titulo"].Str?
    && ("descricao" !in data || data["descricao"].Null? || data["descricao"].Str?)
    && "status" in data && data["status"].Str?
    && "project_id" in data && data["project_id"].Int? && data["project_id"].i >= 0
  }

  /** The task as the four fillable fields of a payload (its JSON body without id and timestamp). */
  function TaskAsPayload(t: Task): Payload
  {
    map[
      "titulo" := Str(t.titulo),
      "descricao" := (if t.descricao.Some? then Str(t.descricao.value) else Null),
      "status" := Str(t.status),
      "project_id" := Int(t.projectId)]
  }

  /** `Task::create($data)`: the row inserted with the given id and creation time, or
      nothing when a column value is missing or of the wrong type. */
  function TaskRow(data: Payload, id: nat, now: nat): (r: Option<Task>)
    ensures r.Some? <==> InsertWellTyped(data)
    ensures r.Some? ==> r.value.id == id && r.value.createdAt == now
    ensures r.Some? ==> forall f :: f in TaskAsPayload(r.value) ==>
      TaskAsPayload(r.value)[f] == (if f in data then data[f] else Null)
  {
    if !InsertWellTyped(data) then None
    else
      var descricao := if "descricao" in data && data["descricao"].Str? then Some(data["descricao"].s) else None;
      Some(Task(id, data["titulo"].s, descricao, data["status"].s, data["project_id"].i as nat, now))
  }

  /** Inserting a task's own fields recreates that task. */
  lemma TaskRowRoundTrip(t: Task)
    ensures TaskRow(TaskAsPayload(t), t.id, t.createdAt) == Some(t)
  {
  }

  /** Every field the payload supplies holds a value of that column's type. */
  predicate UpdateWellTyped(data: Payload)
  {
    && ("titulo" in data ==> data["titulo"].Str?)
    && ("descricao" in data ==> data["descricao"].Null? || data["descricao"].Str?)
    && ("status" in data ==> data["status"].Str?)
    && ("project_id" in data ==> data["project_id"].Int? && data["project_id"].i >= 0)
  }

  /** `$task->update($data)`: the supplied fields take the supplied values, the others keep
      theirs; nothing when a supplied value does not fit its column. */
  function ApplyUpdate(t: Task, data: Payload): (r: Option<Task>)
    ensures r.Some? <==> UpdateWellTyped(data)
    ensures r.Some? ==> r.value.id == t.id && r.value.createdAt == t.createdAt
    ensures r.Some? ==> forall f :: f in TaskAsPayload(t) ==>
      TaskAsPayload(r.value)[f] == if f in data then data[f] else TaskAsPayload(t)[f]
  {
    if !UpdateWellTyped(data) then None
    else Some(Task(
      t.id,
      if "titulo" in data then data["titulo"].s else t.titulo,
      if "descricao" !in data then t.descricao
      else if data["descricao"].Str? then Some(data["descricao"].s) else None,
      if "status" in data then data["status"].s else t.status,
      if "project_id" in data then data["project_id"].i as nat else t.projectId,
      t.createdAt))
  }

  /** Applying the same partial update twice changes nothing more than applying it once. */
  lemma ApplyUpdateIdempotent(t: Task, data: Payload)
    requires UpdateWellTyped(data)
    ensures ApplyUpdate(ApplyUpdate(t, data).value, data) == ApplyUpdate(t, data)
  {
  }

  /** `getTasksByProject` behind its route: an unknown project is not found; a known one
      lists exactly its tasks, newest first. */
  function TasksOfProject(projects: seq<Project>, tasks: seq<Task>, projectId: nat): (r: Result<seq<Task>>)
    ensures r.Err? <==> forall i :: 0 <= i < |projects| ==> projects[i].id != projectId
    ensures r.Err? ==> r.error == NotFound
    ensures r.Ok? ==> NewestFirst(r.value, TaskCreatedKey)
    ensures r.Ok? ==> forall t ::
      multiset(r.value)[t] == if t.projectId == projectId then multiset(tasks)[t] else 0
  {
    if FirstIndex(projects, HasProjectId(projectId)).None? then Err(NotFound)
    else
      FilterMultiset(tasks, OfProject(projectId));
      Ok(SortNewestFirst(Filter(tasks, OfProject(projectId)), TaskCreatedKey))
  }

  /** `createTask`: fills in the default status and inserts the row under the next id. */
  method CreateTask(db: Tables, data: Payload, now: nat) returns (r: Result<Task>)
    requires db.Valid()
    modifies db
    ensures db.Valid()
    ensures db.projects == old(db.projects) && db.statuses == old(db.statuses)
    ensures db.nextProjectId == old(db.nextProjectId) && db.nextStatusId == old(db.nextStatusId)
    ensures var row := TaskRow(WithDefaultStatus(data, old(db.statuses)), old(db.nextTaskId), now);
      if row.Some? then
        r == Ok(row.value) && db.tasks == old(db.tasks) + [row.value] &&
        db.nextTaskId == old(db.nextTaskId) + 1
      else
        r == Err(StorageError) && db.tasks == old(db.tasks) && db.nextTaskId == old(db.nextTaskId)
    ensures r.Ok? && StatusSupplied(data) ==> r.value.status == data["status"].s
    ensures r.Ok? && !StatusSupplied(data) ==> r.value.status == DefaultStatusSlug(old(db.statuses))
  {
    var full := WithDefaultStatus(data, db.statuses);
    var row := TaskRow(full, db.nextTaskId, now);
    if row.None? {
      return Err(StorageError);
    }
    db.tasks := db.tasks + [row.value];
    db.nextTaskId := db.nextTaskId + 1;
    r := Ok(row.value);
  }

  /** `updateTask`: rewrites the stored row in place and returns the reloaded row. */
  method UpdateTask(db: Tables, id: nat, data: Payload) returns (r: Result<Task>)
    requires db.Valid()
    modifies db
    ensures db.Valid()
    ensures db.projects == old(db.projects) && db.statuses == old(db.statuses)
    ensures db.nextProjectId == old(db.nextProjectId) && db.nextTaskId == old(db.nextTaskId)
    ensures db.nextStatusId == old(db.nextStatusId)
    ensures match FirstIndex(old(db.tasks), HasTaskId(id))
      case None => r == Err(NotFound) && db.tasks == old(db.tasks)
      case Some(i) =>
        match ApplyUpdate(old(db.tasks)[i], data)
        case None => r == Err(StorageError) && db.tasks == old(db.tasks)
        case Some(u) => r == Ok(u) && db.tasks == old(db.tasks)[i := u] && db.tasks[i] == r.value
  {
    var found := FirstIndex(db.tasks, HasTaskId(id));
    if found.None? {
      return Err(NotFound);
    }
    var i := found.value;
    var updated := ApplyUpdate(db.tasks[i], data);
    if updated.None? {
      return Err(StorageError);
    }
    var old_tasks := db.tasks;
    db.tasks := db.tasks[i := updated.value];
    assert forall j :: 0 <= j < |db.tasks| ==> db.tasks[j].id == old_tasks[j].id;
    r := Ok(updated.value);
  }

  /** `deleteTask`: removes the one row with that id and keeps every other row, in order. */
  method DeleteTask(db: Tables, id: nat) returns (r: Result<bool>)
    requires db.Valid()
    modifies db
    ensures db.Valid()
    ensures db.projects == old(db.projects) && db.statuses == old(db.statuses)
    ensures db.nextProjectId == old(db.nextProjectId) && db.nextTaskId == old(db.nextTaskId)
    ensures db.nextStatusId == old(db.nextStatusId)
    ensures match FirstIndex(old(db.tasks), HasTaskId(id))
      case None => r == Err(NotFound) && db.tasks == old(db.tasks)
      case Some(i) => r == Ok(true) && db.tasks == old(db.tasks)[..i] + old(db.tasks)[i + 1..]
    ensures db.tasks == Filter(old(db.tasks), NotTaskId(id))
  {
    var found := FirstIndex(db.tasks, HasTaskId(id));
    if found.None? {
      FilterKeepsAll(db.tasks, NotTaskId(id));
      return Err(NotFound);
    }
    var i := found.value;
    FilterDropsOne(db.tasks, NotTaskId(id), i);
    FilterDistinctBy(db.tasks, NotTaskId(id), TaskIdKey);
    db.tasks := Filter(db.tasks, NotTaskId(id));
    r := Ok(true);
  }
}
