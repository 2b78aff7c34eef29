/** The project list page: the URL its fetch builds, what a response
    loads, the edit and delete handlers' guards and list update, the
    start/end date validator of the project form, and which action
    columns each role sees. */
module Projects {
  import opened Common
  import opened Urls
  import Employees
  import Assignments

  const MissingIdMessage := "Cannot find projectId for this project!"
  const FetchFailedMessage := "Failed to fetch projects"
  const UpdatedMessage := "Project updated successfully"
  const UpdateFailedMessage := "Update failed"
  const DeletedMessage := "Deleted successfully"
  const DeleteFailedMessage := "Delete failed"
  const StartAfterEndMessage := "Start date must be before end date!"

  /** A row of the table. `projectId` is not part of the declared row type
      and is read through a cast, so it may be missing. */
  datatype ProjectRow = ProjectRow(projectId: Option<int>, projectCode: string, projectName: string)

  /** The `data` field of a listing response: a page object (for the
      admin listing), a bare array (for one employee's projects), or
      anything else, including a missing field. */
  datatype ListingData =
    | PageData(content: Option<seq<ProjectRow>>, totalElements: Option<int>)
    | ArrayData(items: seq<ProjectRow>)
    | OtherData

  /** The requests the page sends through `authFetch`. */
  datatype Request =
    | List(url: Url)
    | Update(projectId: int)
    | Delete(projectId: int)

  /** What the page holds: the rows, the table's pagination, whether the
      project form is open, the toasts shown and the requests sent. */
  datatype Page = Page(
    rows: seq<ProjectRow>,
    pagination: Employees.Pagination,
    modalOpen: bool,
    toasts: seq<Toast>,
    requests: seq<Request>)

  /** The path of one employee's projects. */
  function OwnProjectsPath(employeeId: int): (path: string)
    ensures var prefix := ApiBaseUrl + "/project/";
            |prefix| < |path| && path[..|prefix|] == prefix
  {
    ApiBaseUrl + "/project/" + IntToDecimal(employeeId)
  }

  /** The request of `fetchProjects(page, size)`: the paged admin listing
      for an administrator, the viewer's own projects for any other
      signed-in user, none without a user. */
  function ProjectsUrl(user: Option<UserInfo>, page: int, size: int): (r: Option<Url>)
    ensures r.None? <==> user.None?
    ensures IsAdmin(user) ==>
      && r.Some? && r.value.path == ApiBaseUrl + "/project/admin"
      && Lookup(r.value.query, "page").Some? && ParseInt(Lookup(r.value.query, "page").value) == Some(page - 1)
      && Lookup(r.value.query, "size").Some? && ParseInt(Lookup(r.value.query, "size").value) == Some(size)
      && forall name :: name != "page" && name != "size" ==> Lookup(r.value.query, name).None?
    ensures user.Some? && !IsAdmin(user) ==>
      && r.Some? && r.value.query == []
      && r.value.path == OwnProjectsPath(user.value.employeeId)
  {
    if user.None? then None
    else if IsAdmin(user) then Some(Url(ApiBaseUrl + "/project/admin", PageQuery(page, size)))
    else Some(Url(OwnProjectsPath(user.value.employeeId), []))
  }

  /** The employee id can be read back from the path of a non-administrator's
      request: distinct employees request distinct paths. */
  lemma OwnProjectsPathRoundTrip(employeeId: int)
    ensures var prefix := ApiBaseUrl + "/project/";
            var path := OwnProjectsPath(employeeId);
            |prefix| <= |path| && path[..|prefix|] == prefix && ParseInt(path[|prefix|..]) == Some(employeeId)
  {
    var prefix := ApiBaseUrl + "/project/";
    var path := OwnProjectsPath(employeeId);
    assert path[|prefix|..] == IntToDecimal(employeeId);
    IntRoundTrip(employeeId);
  }

  lemma OwnProjectsPathInjective(a: int, b: int)
    ensures OwnProjectsPath(a) == OwnProjectsPath(b) ==> a == b
  {
    OwnProjectsPathRoundTrip(a);
    OwnProjectsPathRoundTrip(b);
  }

  /** The rows an administrator's listing answer carries: `data.content`
      when it is an array, otherwise none. */
  function AdminRows(data: ListingData): seq<ProjectRow> {
    if data.PageData? && data.content.Some? then data.content.value else []
  }

  /** `data.totalElements || 0` of an administrator's listing answer. */
  function AdminTotal(data: ListingData): int {
    if data.PageData? then data.totalElements.GetOr(0) else 0
  }

  /** `fetchProjects(page, size)` on page `p` with the answer `reply`:
      nothing without a user; otherwise the request is sent and an OK
      answer replaces the rows (and, for an administrator, the
      pagination), while a failure shows an error toast. */
  function FetchProjects(p: Page, user: Option<UserInfo>, page: int, size: int, reply: Reply<ListingData>): (r: Page)
    ensures user.None? ==> r == p
    ensures user.Some? ==> r.requests == p.requests + [List(ProjectsUrl(user, page, size).value)]
    ensures r.modalOpen == p.modalOpen
    ensures user.Some? && !reply.Ok? ==>
      r.rows == p.rows && r.pagination == p.pagination && r.toasts == p.toasts + [ErrorToast(FetchFailedMessage)]
    ensures user.Some? && reply.Ok? ==> r.toasts == p.toasts
    ensures IsAdmin(user) && reply.Ok? ==>
      && r.pagination.current == page && r.pagination.pageSize == size
      && (reply.body.PageData? && reply.body.content.Some? ==> r.rows == reply.body.content.value)
      && (!(reply.body.PageData? && reply.body.content.Some?) ==> r.rows == [])
      && r.pagination.total == (if reply.body.PageData? then reply.body.totalElements.GetOr(0) else 0)
    ensures user.Some? && !IsAdmin(user) && reply.Ok? ==>
      && r.pagination == p.pagination
      && r.rows == (if reply.body.ArrayData? then reply.body.items else [])
  {
    if user.None? then p
    else
      var sent := p.(requests := p.requests + [List(ProjectsUrl(user, page, size).value)]);
      match reply
      case Ok(data) =>
        if IsAdmin(user) then
          sent.(rows := AdminRows(data), pagination := Employees.Pagination(page, size, AdminTotal(data)))
        else
          sent.(rows := if data.ArrayData? then data.items else [])
      case _ => sent.(toasts := p.toasts + [ErrorToast(FetchFailedMessage)])
  }

  /** An administrator's loaded page is the one the request asked for:
      the `page` parameter sent reads back as the shown page minus one,
      and `size` as the page size. */
  lemma LoadedPageMatchesRequest(p: Page, user: Option<UserInfo>, page: int, size: int, data: ListingData)
    requires IsAdmin(user)
    ensures var r := FetchProjects(p, user, page, size, Ok(data));
            var url := r.requests[|r.requests| - 1].url;
            && Lookup(url.query, "page").Some? && ParseInt(Lookup(url.query, "page").value) == Some(r.pagination.current - 1)
            && Lookup(url.query, "size").Some? && ParseInt(Lookup(url.query, "size").value) == Some(r.pagination.pageSize)
  {
  }

  /** `handleEdit(values)` while `editing` is the project being edited.
      Without a truthy `projectId` an error toast and no request. Otherwise
      the update is sent; an OK answer shows the success toast, closes the
      form and refetches the current page of the admin listing, whose
      answer `refetch` (the decoded body, whatever its status, or `None`
      when the refetch or its decoding throws) replaces the rows and the
      total. A throwing refetch lands in the handler's catch block and
      adds the failure toast after the success toast. */
  function HandleEdit(p: Page, editing: Option<ProjectRow>, reply: Reply<()>, refetch: Option<ListingData>): (r: Page)
    ensures var id := if editing.Some? then editing.value.projectId else None;
      && (!TruthyNumber(id) ==> r == p.(toasts := p.toasts + [ErrorToast(MissingIdMessage)]))
      && (TruthyNumber(id) && !reply.Ok? ==>
            r == p.(requests := p.requests + [Update(id.value)], toasts := p.toasts + [ErrorToast(UpdateFailedMessage)]))
      && (TruthyNumber(id) && reply.Ok? ==>
            && r.requests == p.requests + [Update(id.value), List(Url(ApiBaseUrl + "/project/admin", PageQuery(p.pagination.current, p.pagination.pageSize)))]
            && !r.modalOpen
            && r.pagination.current == p.pagination.current && r.pagination.pageSize == p.pagination.pageSize
            && (refetch.Some? ==>
                  && (refetch.value.PageData? && refetch.value.content.Some? ==> r.rows == refetch.value.content.value)
                  && (!(refetch.value.PageData? && refetch.value.content.Some?) ==> r.rows == [])
                  && r.pagination.total == (if refetch.value.PageData? then refetch.value.totalElements.GetOr(0) else 0)
                  && r.toasts == p.toasts + [SuccessToast(UpdatedMessage)])
            && (refetch.None? ==>
                  && r.rows == p.rows && r.pagination == p.pagination
                  && r.toasts == p.toasts + [SuccessToast(UpdatedMessage), ErrorToast(UpdateFailedMessage)]))
    ensures r.rows != p.rows || r.pagination != p.pagination ==> reply.Ok? && refetch.Some?
  {
    var id := if editing.Some? then editing.value.projectId else None;
    if !TruthyNumber(id) then p.(toasts := p.toasts + [ErrorToast(MissingIdMessage)])
    else
      var sent := p.(requests := p.requests + [Update(id.value)]);
      if reply.Ok? then
        var url := Url(ApiBaseUrl + "/project/admin", PageQuery(p.pagination.current, p.pagination.pageSize));
        var closed := sent.(modalOpen := false, toasts := p.toasts + [SuccessToast(UpdatedMessage)], requests := sent.requests + [List(url)]);
        match refetch
        case Some(data) => closed.(rows := AdminRows(data), pagination := p.pagination.(total := AdminTotal(data)))
        case None => closed.(toasts := closed.toasts + [ErrorToast(UpdateFailedMessage)])
      else sent.(toasts := p.toasts + [ErrorToast(UpdateFailedMessage)])
  }

  /** After an administrator has fetched a page, a successful edit
      refetches exactly that page, and the refetched answer loads what
      fetching that page again would load. */
  lemma EditRefetchesShownPage(p: Page, user: Option<UserInfo>, page: int, size: int, shownData: ListingData,
                               editing: Option<ProjectRow>, data: ListingData)
    requires IsAdmin(user)
    requires editing.Some? && TruthyNumber(editing.value.projectId)
    ensures var shown := FetchProjects(p, user, page, size, Ok(shownData));
            var edited := HandleEdit(shown, editing, Ok(()), Some(data));
            var again := FetchProjects(shown, user, page, size, Ok(data));
            && edited.requests[|edited.requests| - 1] == shown.requests[|shown.requests| - 1]
            && edited.rows == again.rows && edited.pagination == again.pagination
  {
  }

  /** `data.find(proj => proj.projectCode === code)`: the first row with
      that code. */
  function FindByCode(rows: seq<ProjectRow>, code: string): (r: Option<ProjectRow>)
    ensures r.None? <==> forall i :: 0 <= i < |rows| ==> rows[i].projectCode != code
    ensures r.Some? ==> exists i :: 0 <= i < |rows| && rows[i] == r.value && r.value.projectCode == code
                                    && forall j :: 0 <= j < i ==> rows[j].projectCode != code
  {
    if rows == [] then None
    else if rows[0].projectCode == code then Some(rows[0])
    else
      var r := FindByCode(rows[1..], code);
      if r.Some? then
        ghost var i :| 0 <= i < |rows[1..]| && rows[1..][i] == r.value && r.value.projectCode == code
                       && forall j :: 0 <= j < i ==> rows[1..][j].projectCode != code;
        assert rows[i + 1] == r.value;
        r
      else r
  }

  /** `data.filter(proj => proj.projectId !== id)`: a row without an id
      differs from every number and is kept. */
  function RemoveId(rows: seq<ProjectRow>, id: int): (r: seq<ProjectRow>)
    ensures forall x :: x in r <==> x in rows && x.projectId != Some(id)
    ensures |r| <= |rows|
  {
    if rows == [] then []
    else if rows[0].projectId == Some(id) then RemoveId(rows[1..], id)
    else [rows[0]] + RemoveId(rows[1..], id)
  }

  /** Filtering distributes over concatenation: together with the
      single-row case, the rows that stay keep their relative order. */
  lemma {:induction false} RemoveIdAppend(a: seq<ProjectRow>, b: seq<ProjectRow>, id: int)
    ensures RemoveId(a + b, id) == RemoveId(a, id) + RemoveId(b, id)
    decreases |a|
  {
    if a == [] {
      assert a + b == b;
    } else {
      assert (a + b)[0] == a[0];
      assert (a + b)[1..] == a[1..] + b;
      RemoveIdAppend(a[1..], b, id);
    }
  }

  lemma RemoveIdSingle(x: ProjectRow, id: int)
    ensures RemoveId([x], id) == if x.projectId == Some(id) then [] else [x]
  {
    assert [x][1..] == [];
  }

  /** A list without the id is left as it is. */
  lemma {:induction false} RemoveIdAbsent(rows: seq<ProjectRow>, id: int)
    requires forall i :: 0 <= i < |rows| ==> rows[i].projectId != Some(id)
    ensures RemoveId(rows, id) == rows
    decreases |rows|
  {
    if rows != [] {
      RemoveIdAbsent(rows[1..], id);
    }
  }

  /** `handleDelete(code)`: the first row with that code must carry a
      truthy `projectId`, otherwise an error toast and no request; an OK
      answer to the delete removes every row with that id. */
  function HandleDelete(p: Page, code: string, reply: Reply<()>): (r: Page)
    ensures var found := FindByCode(p.rows, code);
      && (found.None? || !TruthyNumber(found.value.projectId) ==>
            r == p.(toasts := p.toasts + [ErrorToast(MissingIdMessage)]))
      && (found.Some? && TruthyNumber(found.value.projectId) ==>
            && r.requests == p.requests + [Delete(found.value.projectId.value)]
            && r.pagination == p.pagination && r.modalOpen == p.modalOpen
            && (reply.Ok? ==> r.rows == RemoveId(p.rows, found.value.projectId.value)
                              && found.value !in r.rows
                              && r.toasts == p.toasts + [SuccessToast(DeletedMessage)])
            && (!reply.Ok? ==> r.rows == p.rows && r.toasts == p.toasts + [ErrorToast(DeleteFailedMessage)]))
  {
    var found := FindByCode(p.rows, code);
    if found.None? || !TruthyNumber(found.value.projectId) then
      p.(toasts := p.toasts + [ErrorToast(MissingIdMessage)])
    else
      var id := found.value.projectId.value;
      var sent := p.(requests := p.requests + [Delete(id)]);
      if reply.Ok? then sent.(rows := RemoveId(p.rows, id), toasts := p.toasts + [SuccessToast(DeletedMessage)])
      else sent.(toasts := p.toasts + [ErrorToast(DeleteFailedMessage)])
  }

  /** A successful delete removes the project that was asked for, and
      every row whose id differs from it stays. */
  lemma DeleteRemovesExactlyThatId(p: Page, code: string, x: ProjectRow)
    requires FindByCode(p.rows, code).Some? && TruthyNumber(FindByCode(p.rows, code).value.projectId)
    ensures var id := FindByCode(p.rows, code).value.projectId.value;
            var r := HandleDelete(p, code, Ok(()));
            (x in r.rows <==> x in p.rows && x.projectId != Some(id))
            && (forall i :: 0 <= i < |r.rows| ==> r.rows[i].projectCode != code || r.rows[i].projectId != Some(id))
  {
  }

  /** The project form's start-date validator: it passes when either
      date is missing and otherwise rejects exactly a start strictly after
      the end, at day granularity. */
  function ValidateStartDate(start: Option<Day>, end: Option<Day>): (r: Option<string>)
    ensures r.Some? ==> r.value == StartAfterEndMessage
    ensures start.None? || end.None? ==> r.None?
  {
    if start.None? || end.None? then None
    else if start.value > end.value then Some(StartAfterEndMessage)
    else None
  }

  /** The validator passes two given dates exactly when some day lies
      between them, that is, when they bound a non-empty period. */
  lemma ValidatorMatchesInterval(start: Day, end: Day)
    ensures ValidateStartDate(Some(start), Some(end)).None? <==> exists d :: Assignments.Covers(start, Some(end), d)
  {
    if start <= end {
      assert Assignments.Covers(start, Some(end), start);
    }
  }

  /** The same dates that pass this validator pass the assignment form's
      start-after-end check, and vice versa, whenever a start is given. */
  lemma ValidatorAgreesWithAssignments(v: Assignments.Values)
    ensures ValidateStartDate(Some(v.startDate), v.endDate).None? <==> !Assignments.StartsAfterEnd(v)
  {
  }

  /** The row action column: edit and delete for an administrator, the
      periods viewer for a signed-in user who is neither administrator nor
      project manager, and no column at all otherwise. */
  datatype ActionColumn = EditDelete | ViewPeriods | NoActions

  function ActionColumnFor(user: Option<UserInfo>): (r: ActionColumn)
    ensures r == EditDelete <==> IsAdmin(user)
    ensures r == ViewPeriods <==> user.Some? && !IsAdmin(user) && !IsProjectManager(user)
    ensures r == NoActions <==> user.None? || IsProjectManager(user)
  {
    if IsAdmin(user) then EditDelete
    else if user.Some? && user.value.role != Admin && user.value.role != ProjectManager then ViewPeriods
    else NoActions
  }

  /** The participation-periods table gets its edit column only for a
      project manager. */
  function HasPeriodEditColumn(user: Option<UserInfo>): (r: bool)
    ensures r <==> IsProjectManager(user)
  {
    user.Some? && user.value.role == ProjectManager
  }

  /** The column titles of the project table, after `filter(col => col !== null)`. */
  function ProjectColumns(user: Option<UserInfo>): (r: seq<string>)
    ensures |r| == 6 || |r| == 7
    ensures |r| == 7 <==> ActionColumnFor(user) != NoActions
    ensures r[..6] == ["Project Code", "Project Name", "PM Email", "Start Date", "End Date", "Description"]
  {
    var fixed := ["Project Code", "Project Name", "PM Email", "Start Date", "End Date", "Description"];
    if ActionColumnFor(user) == NoActions then fixed else fixed + ["Action"]
  }

  /** Each signed-in user has exactly one way to act on projects from this
      page: row actions, the periods viewer, or (for a project manager)
      editing periods; without a user there is none. */
  lemma RolesActExclusively(user: Option<UserInfo>)
    ensures user.Some? ==>
      (if ActionColumnFor(user) != NoActions then 1 else 0) + (if HasPeriodEditColumn(user) then 1 else 0) == 1
    ensures user.None? ==> ActionColumnFor(user) == NoActions && !HasPeriodEditColumn(user)
    ensures HasPeriodEditColumn(user) ==> |ProjectColumns(user)| == 6
  {
  }
}
