/**
 * The rows of the three tables (projects, tasks, statuses), the loosely typed request
 * payloads both tiers exchange, and the error outcomes of the domain services.
 * Identifiers and creation timestamps are abstract natural numbers.
 */
module Records {
  import opened Wrappers

  /** A JSON / PHP scalar as it arrives in a request body. */
  datatype Value = Null | Str(s: string) | Int(i: int) | Bool(b: bool)

  /** A request body: field name to value. A key that is absent differs from a key bound to Null. */
  type Payload = map<string, Value>

  datatype Project = Project(id: nat, name: string, createdAt: nat)

  datatype Task = Task(
    id: nat,
    titulo: string,
    descricao: Option<string>,
    status: string,
    projectId: nat,
    createdAt: nat)

  datatype Status = Status(id: nat, name: string, slug: string, color: string, order: int)

  /** The slugs a task's status may take (the `in:` list of the task form requests). */
  const TaskStatusSlugs: seq<string> := ["pending", "in_progress", "completed"]

  /** Why a domain-service call fails: an unknown id (HTTP 404) or a write the storage layer refuses. */
  datatype ServiceError = NotFound | StorageError

  datatype Result<T> = Ok(value: T) | Err(error: ServiceError)

  // Column accessors, named so that the same key function appears in every contract.

  function ProjectIdKey(p: Project): nat { p.id }
  function ProjectCreatedKey(p: Project): nat { p.createdAt }
  function ProjectNameKey(p: Project): string { p.name }
  function TaskIdKey(t: Task): nat { t.id }
  function TaskCreatedKey(t: Task): nat { t.createdAt }
  function StatusIdKey(s: Status): nat { s.id }
  function StatusSlugKey(s: Status): string { s.slug }

  // Row selectors (the `where` clauses and JavaScript filter callbacks of the system).

  function OfProject(projectId: nat): Task -> bool { (t: Task) => t.projectId == projectId }
  function HasTaskId(id: nat): Task -> bool { (t: Task) => t.id == id }
  function NotTaskId(id: nat): Task -> bool { (t: Task) => t.id != id }
  function HasProjectId(id: nat): Project -> bool { (p: Project) => p.id == id }
  function NotProjectId(id: nat): Project -> bool { (p: Project) => p.id != id }
  function HasSlug(slug: string): Status -> bool { (s: Status) => s.slug == slug }
  function HasStatus(slug: string): Task -> bool { (t: Task) => t.status == slug }
}
