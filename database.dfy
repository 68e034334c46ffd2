/**
 * The persistence store: the projects, tasks and statuses tables held in memory, with
 * auto-increment counters for the server-assigned ids. The domain services change the
 * tables in place through this object.
 */
module Database {
  import opened Seqs
  import opened Records

  class Tables {
    var projects: seq<Project>
    var tasks: seq<Task>
    var statuses: seq<Status>
    var nextProjectId: nat
    var nextTaskId: nat
    var nextStatusId: nat

    /** Primary keys are unique and below their counter; status slugs are unique. */
    ghost predicate Valid()
      reads this
    {
      && DistinctBy(projects, ProjectIdKey)
      && (forall i :: 0 <= i < |projects| ==> projects[i].id < nextProjectId)
      && DistinctBy(tasks, TaskIdKey)
      && (forall i :: 0 <= i < |tasks| ==> tasks[i].id < nextTaskId)
      && DistinctBy(statuses, StatusIdKey)
      && (forall i :: 0 <= i < |statuses| ==> statuses[i].id < nextStatusId)
      && DistinctBy(statuses, StatusSlugKey)
    }

    /** A freshly migrated, empty database; auto-increment ids start at 1. */
    constructor ()
      ensures Valid()
      ensures projects == [] && tasks == [] && statuses == []
      ensures nextProjectId == 1 && nextTaskId == 1 && nextStatusId == 1
    {
      projects, tasks, statuses := [], [], [];
      nextProjectId, nextTaskId, nextStatusId := 1, 1, 1;
    }
  }
}
