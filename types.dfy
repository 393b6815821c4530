/** The enumerations and the AI index row of the portal's database schema,
    with the string each value is stored as. */
module Types {

  import opened Common

  /** The eight organisational roles of a profile. */
  datatype Role = Agent | BranchManager | OpsManager | Director | Security | Accountant | ItAdmin | Hr

  function RoleName(r: Role): string {
    match r
    case Agent => "agent"
    case BranchManager => "branch_manager"
    case OpsManager => "ops_manager"
    case Director => "director"
    case Security => "security"
    case Accountant => "accountant"
    case ItAdmin => "it_admin"
    case Hr => "hr"
  }

  datatype TaskType = Operations | It | Security | Other

  function TaskTypeName(t: TaskType): string {
    match t
    case Operations => "operations"
    case It => "it"
    case Security => "security"
    case Other => "other"
  }

  datatype TaskPriority = Low | Medium | High

  function TaskPriorityName(p: TaskPriority): string {
    match p
    case Low => "low"
    case Medium => "medium"
    case High => "high"
  }

  datatype TaskStatus = New | InProgress | Done | Rejected

  function TaskStatusName(s: TaskStatus): string {
    match s
    case New => "new"
    case InProgress => "in_progress"
    case Done => "done"
    case Rejected => "rejected"
  }

  datatype ChecklistStatus = NotStarted | InProgress | Completed | Overdue

  function ChecklistStatusName(s: ChecklistStatus): string {
    match s
    case NotStarted => "not_started"
    case InProgress => "in_progress"
    case Completed => "completed"
    case Overdue => "overdue"
  }

  datatype ArticleStatus = Draft | Published | Archived

  function ArticleStatusName(s: ArticleStatus): string {
    match s
    case Draft => "draft"
    case Published => "published"
    case Archived => "archived"
  }

  datatype NewsType = Critical | Normal

  datatype CourseProgressStatus = NotStarted | InProgress | Completed

  /** One chunk of the AI index (`ai_index`): a fragment of a source with its
      embedding and the roles and branches allowed to see it. */
  datatype AIIndex = AIIndex(
    id: string,
    sourceType: string,
    sourceId: string,
    chunkIndex: int,
    content: string,
    embedding: Option<seq<real>>,
    visibilityRoles: seq<Role>,
    visibilityBranchIds: seq<string>,
    createdAt: string,
    updatedAt: string)
}
