/** Shared vocabulary of the HR front end: optional values, JavaScript
    truthiness of the values the components test, day-numbered dates, and
    the signed-in user's profile as the components read it. */
module Common {

  /** A value that may be missing (`null` or `undefined` in the source). */
  datatype Option<+T> = None | Some(value: T) {

    /** The value, or `default` when it is missing. */
    function GetOr(default: T): T {
      match this
      case Some(v) => v
      case None => default
    }
  }

  /** JavaScript truthiness of an optional string: present and non-empty. */
  predicate Truthy(s: Option<string>) {
    s.Some? && s.value != ""
  }

  /** JavaScript truthiness of an optional number: present and non-zero. */
  predicate TruthyNumber(n: Option<int>) {
    n.Some? && n.value != 0
  }

  /** `s || fallback` for an optional string. */
  function OrElse(s: Option<string>, fallback: string): string {
    if Truthy(s) then s.value else fallback
  }

  /** A transient notice shown to the user (an antd `message` or a
      react-toastify `toast`). */
  datatype Toast = SuccessToast(text: string) | ErrorToast(text: string)

  /** A calendar date at day granularity (days since some fixed epoch). */
  type Day = int

  /** The role names the components compare against. */
  const Admin := "ADMIN"
  const ProjectManager := "PM"
  const DefaultRole := "Employee"

  /** The profile held in the user context once it has been fetched. */
  datatype UserInfo = UserInfo(
    name: string,
    role: string,
    avatarUrl: Option<string>,
    employeeId: int,
    email: string)

  /** `user?.role === 'ADMIN'`: false when there is no user. */
  predicate IsAdmin(user: Option<UserInfo>) {
    user.Some? && user.value.role == Admin
  }

  /** `user?.role === 'PM'`: false when there is no user. */
  predicate IsProjectManager(user: Option<UserInfo>) {
    user.Some? && user.value.role == ProjectManager
  }

  /** The outcome of an asynchronous request as the component sees it:
      the promise rejects, resolves with a non-OK status, or resolves OK
      with a decoded body. */
  datatype Reply<+T> = Rejected | NotOk(status: int) | Ok(body: T)
}
