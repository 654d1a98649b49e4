/** The role and task-status enumerations and their string values. */
module UserType {
  import opened Common

  /** `UserRolesEnum`: four roles, `none` included. */
  datatype UserRole = Admin | ProjectAdmin | Member | NoRole

  function RoleValue(r: UserRole): string
  {
    match r
    case Admin => "admin"
    case ProjectAdmin => "project_admin"
    case Member => "member"
    case NoRole => "none"
  }

  /** `AvailableUserRole`: the enum's values in declaration order. */
  const AvailableUserRoles: seq<UserRole> := [Admin, ProjectAdmin, Member, NoRole]

  /** Membership of a string in the role enum, and which role it names. */
  function ParseRole(s: string): (r: Option<UserRole>)
    ensures r.Some? ==> RoleValue(r.value) == s
    ensures forall role: UserRole :: RoleValue(role) == s ==> r == Some(role)
  {
    if s == "admin" then Some(Admin)
    else if s == "project_admin" then Some(ProjectAdmin)
    else if s == "member" then Some(Member)
    else if s == "none" then Some(NoRole)
    else None
  }

  /** `AvailableUserRole` lists every role once, and only the four role strings are accepted. */
  lemma AvailableUserRolesComplete()
    ensures |AvailableUserRoles| == 4
    ensures forall role: UserRole :: role in AvailableUserRoles
    ensures forall i, j :: 0 <= i < j < |AvailableUserRoles| ==> RoleValue(AvailableUserRoles[i]) != RoleValue(AvailableUserRoles[j])
  {
    forall role: UserRole ensures role in AvailableUserRoles {
      match role
      case Admin => assert AvailableUserRoles[0] == role;
      case ProjectAdmin => assert AvailableUserRoles[1] == role;
      case Member => assert AvailableUserRoles[2] == role;
      case NoRole => assert AvailableUserRoles[3] == role;
    }
  }

  /** `TaskStatusEnum`. */
  datatype TaskStatus = Todo | InProgress | Done

  function StatusValue(s: TaskStatus): string
  {
    match s
    case Todo => "todo"
    case InProgress => "in_progress"
    case Done => "done"
  }

  /** `AvailableTaskStatues`: the enum's values in declaration order. */
  const AvailableTaskStatuses: seq<TaskStatus> := [Todo, InProgress, Done]

  /** `z.enum(AvailableTaskStatues)`: the string is one of the status values, and which. */
  function ParseTaskStatus(s: string): (r: Option<TaskStatus>)
    ensures r.Some? ==> StatusValue(r.value) == s
    ensures forall st: TaskStatus :: StatusValue(st) == s ==> r == Some(st)
    ensures r.Some? <==> s in {"todo", "in_progress", "done"}
  {
    if s == "todo" then Some(Todo)
    else if s == "in_progress" then Some(InProgress)
    else if s == "done" then Some(Done)
    else None
  }

  /** The schema default for a task's status. */
  const DefaultTaskStatus := Todo
}
