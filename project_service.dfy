/**
 * The project domain service: list all projects newest first with their task counts,
 * create, delete and look up a project.
 */
module ProjectService {
  import opened Wrappers
  import opened Seqs
  import opened Records
  import opened Database

  /** A project as `withCount('tasks')` returns it: the row plus its `tasks_count`. */
  datatype ProjectWithCount = ProjectWithCount(project: Project, tasksCount: nat)

  /** The number of tasks whose `project_id` is `projectId`. */
  function CountTasks(tasks: seq<Task>, projectId: nat): nat
  {
    |Filter(tasks, OfProject(projectId))|
  }

  /** The listed projects without their counts. */
  function Unannotated(r: seq<ProjectWithCount>): seq<Project>
  {
    seq(|r|, i requires 0 <= i < |r| => r[i].project)
  }

  /** `getAllProjects`: every project exactly as often as it is stored, newest first,
      each with the number of its tasks. */
  function AllProjects(projects: seq<Project>, tasks: seq<Task>): (r: seq<ProjectWithCount>)
    ensures NewestFirst(Unannotated(r), ProjectCreatedKey)
    ensures multiset(Unannotated(r)) == multiset(projects)
    ensures forall i :: 0 <= i < |r| ==> r[i].tasksCount == CountTasks(tasks, r[i].project.id)
  {
    var sorted := SortNewestFirst(projects, ProjectCreatedKey);
    var r := seq(|sorted|, i requires 0 <= i < |sorted| =>
      ProjectWithCount(sorted[i], CountTasks(tasks, sorted[i].id)));
    assert Unannotated(r) == sorted;
    r
  }

  /** With unique ids, the listing holds each stored project exactly once. */
  lemma {:induction false} AllProjectsOncePerProject(projects: seq<Project>, tasks: seq<Task>, p: Project)
    requires DistinctBy(projects, ProjectIdKey)
    requires p in projects
    ensures multiset(Unannotated(AllProjects(projects, tasks)))[p] == 1
  {
    OccursOnce(projects, p);
  }

  lemma {:induction false} OccursOnce(projects: seq<Project>, p: Project)
    requires DistinctBy(projects, ProjectIdKey)
    requires p in projects
    ensures multiset(projects)[p] == 1
    decreases |projects|
  {
    assert projects == [projects[0]] + projects[1..];
    if projects[0] == p {
      assert p !in projects[1..] by {
        forall j | 0 <= j < |projects[1..]| ensures projects[1..][j] != p {
          assert projects[j + 1].id != projects[0].id;
        }
      }
    } else {
      OccursOnce(projects[1..], p);
    }
  }

  /** `findProject`: the project with that id, or nothing. */
  function FindProject(projects: seq<Project>, id: nat): (r: Option<Project>)
    ensures r.Some? ==> r.value in projects && r.value.id == id
    ensures r.None? ==> forall i :: 0 <= i < |projects| ==> projects[i].id != id
  {
    match FirstIndex(projects, HasProjectId(id))
    case None => None
    case Some(i) => Some(projects[i])
  }

  /** `createProject`: inserts one row carrying the name under the next id. */
  method CreateProject(db: Tables, name: string, now: nat) returns (p: Project)
    requires db.Valid()
    modifies db
    ensures db.Valid()
    ensures p == Project(old(db.nextProjectId), name, now)
    ensures db.projects == old(db.projects) + [p]
    ensures db.nextProjectId == old(db.nextProjectId) + 1
    ensures db.tasks == old(db.tasks) && db.statuses == old(db.statuses)
    ensures db.nextTaskId == old(db.nextTaskId) && db.nextStatusId == old(db.nextStatusId)
  {
    p := Project(db.nextProjectId, name, now);
    db.projects := db.projects + [p];
    db.nextProjectId := db.nextProjectId + 1;
  }

  /** `deleteProject`: removes the project's row and keeps every other project, in order.
      The task table is not touched by the service. */
  method DeleteProject(db: Tables, id: nat) returns (r: Result<bool>)
    requires db.Valid()
    modifies db
    ensures db.Valid()
    ensures db.tasks == old(db.tasks) && db.statuses == old(db.statuses)
    ensures db.nextProjectId == old(db.nextProjectId) && db.nextTaskId == old(db.nextTaskId)
    ensures db.nextStatusId == old(db.nextStatusId)
    ensures match FirstIndex(old(db.projects), HasProjectId(id))
      case None => r == Err(NotFound) && db.projects == old(db.projects)
      case Some(i) => r == Ok(true) && db.projects == old(db.projects)[..i] + old(db.projects)[i + 1..]
    ensures db.projects == Filter(old(db.projects), NotProjectId(id))
  {
    var found := FirstIndex(db.projects, HasProjectId(id));
    if found.None? {
      FilterKeepsAll(db.projects, NotProjectId(id));
      return Err(NotFound);
    }
    FilterDropsOne(db.projects, NotProjectId(id), found.value);
    FilterDistinctBy(db.projects, NotProjectId(id), ProjectIdKey);
    db.projects := Filter(db.projects, NotProjectId(id));
    r := Ok(true);
  }
}
