/** The employee list page: the URL its fetch builds, what a response
    loads, who may edit or delete a row, and the order in which an
    employee's participation periods are listed. */
module Employees {
  import opened Common
  import opened Urls

  datatype Employee = Employee(employeeId: int, employeeCode: string, role: string)

  /** The table's pagination state. */
  datatype Pagination = Pagination(current: int, pageSize: int, total: int)

  /** A page of the admin listing: `data.content` and `data.totalElements`,
      either possibly missing. */
  datatype EmployeePage = EmployeePage(content: Option<seq<Employee>>, totalElements: Option<int>)

  /** What a fetch does to the table: nothing yet requested, a load, or
      an error toast with the rows left as they were. */
  datatype Loaded = NotRequested | Loaded(rows: seq<Employee>, pagination: Pagination) | Failed

  /** The request of `fetchEmployees(page, size, role)`: the paged admin
      listing for an administrator, the viewer's own record for any other
      signed-in user, none without a user. */
  function EmployeesUrl(user: Option<UserInfo>, page: int, size: int, role: Option<string>): (r: Option<Url>)
    ensures r.None? <==> user.None?
    ensures IsAdmin(user) ==>
      && r.Some?
      && Lookup(r.value.query, "page").Some? && Lookup(r.value.query, "size").Some?
      && r.value.path == ApiBaseUrl + "/employee/admin"
      && ParseInt(Lookup(r.value.query, "page").value) == Some(page - 1)
      && ParseInt(Lookup(r.value.query, "size").value) == Some(size)
      && (Lookup(r.value.query, "role").Some? <==> Truthy(role))
      && (Truthy(role) ==> Lookup(r.value.query, "role") == role)
      && forall name :: name != "page" && name != "size" && name != "role" ==> Lookup(r.value.query, name).None?
    ensures user.Some? && !IsAdmin(user) ==> r == Some(Url(ApiBaseUrl + "/employee/info", []))
  {
    if IsAdmin(user) then
      Some(Url(ApiBaseUrl + "/employee/admin", AdminQuery(page, size, role)))
    else if user.Some? then Some(Url(ApiBaseUrl + "/employee/info", []))
    else None
  }

  /** `?page=…&size=…`, followed by `&role=…` when a truthy role filter
      is given. */
  function AdminQuery(page: int, size: int, role: Option<string>): (q: seq<Param>)
    ensures Lookup(q, "page").Some? && ParseInt(Lookup(q, "page").value) == Some(page - 1)
    ensures Lookup(q, "size").Some? && ParseInt(Lookup(q, "size").value) == Some(size)
    ensures Lookup(q, "role").Some? <==> Truthy(role)
    ensures Truthy(role) ==> Lookup(q, "role") == role
    ensures forall name :: name != "page" && name != "size" && name != "role" ==> Lookup(q, name).None?
  {
    var pq := PageQuery(page, size);
    if Truthy(role) then
      var filter := [Param("role", role.value)];
      LookupAppendAll(pq, filter);
      assert Lookup(filter, "role") == role;
      assert forall name :: name != "role" ==> Lookup(filter, name).None?;
      pq + filter
    else
      pq
  }

  /** The first page with the default size and no role filter. */
  lemma FirstAdminPageUrl(user: Option<UserInfo>)
    requires IsAdmin(user)
    ensures Render(EmployeesUrl(user, 1, 10, None).value) == ApiBaseUrl + "/employee/admin" + "?page=0&size=10"
  {
    var q := PageQuery(1, 10);
    assert q + [] == q;
    assert EmployeesUrl(user, 1, 10, None) == Some(Url(ApiBaseUrl + "/employee/admin", q));
    FirstPageRender(ApiBaseUrl + "/employee/admin");
  }

  /** An administrator's page arriving: its rows, the requested page and
      size, and `totalElements || 0`. */
  function AdminLoaded(page: int, size: int, reply: Reply<Option<EmployeePage>>): (r: Loaded)
    ensures reply.Ok? <==> r.Loaded?
    ensures r.Loaded? ==> r.pagination.current == page && r.pagination.pageSize == size
    ensures r.Loaded? && reply.body.Some? && reply.body.value.content.Some? ==> r.rows == reply.body.value.content.value
    ensures r.Loaded? && (reply.body.None? || reply.body.value.content.None?) ==> r.rows == []
    ensures r.Loaded? ==> r.pagination.total == (if reply.body.Some? then reply.body.value.totalElements.GetOr(0) else 0)
  {
    match reply
    case Ok(body) =>
      var rows := if body.Some? && body.value.content.Some? then body.value.content.value else [];
      var total := if body.Some? then body.value.totalElements.GetOr(0) else 0;
      Loaded(rows, Pagination(page, size, total))
    case _ => Failed
  }

  /** An administrator's loaded page is the one the request asked for:
      the `page` parameter sent reads back as the shown page minus one,
      and `size` as the page size. */
  lemma AdminPageMatchesRequest(user: Option<UserInfo>, page: int, size: int, role: Option<string>, body: Option<EmployeePage>)
    requires IsAdmin(user)
    ensures var query := EmployeesUrl(user, page, size, role).value.query;
            var r := AdminLoaded(page, size, Ok(body));
            && Lookup(query, "page").Some? && ParseInt(Lookup(query, "page").value) == Some(r.pagination.current - 1)
            && Lookup(query, "size").Some? && ParseInt(Lookup(query, "size").value) == Some(r.pagination.pageSize)
  {
  }

  /** Any other user's own record arriving: at most one row, on a single
      page of ten. */
  function OwnRecordLoaded(reply: Reply<Option<Employee>>): (r: Loaded)
    ensures reply.Ok? <==> r.Loaded?
    ensures r.Loaded? ==> |r.rows| <= 1 && r.pagination == Pagination(1, 10, 1)
    ensures r.Loaded? ==> (r.rows == [] <==> reply.body.None?)
    ensures r.Loaded? && reply.body.Some? ==> r.rows == [reply.body.value]
  {
    match reply
    case Ok(body) => Loaded(if body.Some? then [body.value] else [], Pagination(1, 10, 1))
    case _ => Failed
  }

  /** The inline role editor and the edit button are shown only to an
      administrator. */
  predicate CanEdit(viewer: Option<UserInfo>) {
    IsAdmin(viewer)
  }

  /** The delete button's guard, as written: an administrator viewing a
      non-administrator, or a signed-in viewer looking at someone else's
      non-administrator record. */
  function CanDelete(viewer: Option<UserInfo>, record: Employee): (r: bool)
    ensures r <==> record.role != Admin && viewer.Some? && (viewer.value.role == Admin || viewer.value.employeeId != record.employeeId)
  {
    (IsAdmin(viewer) && record.role != Admin)
    || (viewer.Some? && viewer.value.employeeId != record.employeeId && record.role != Admin)
  }

  /** An administrator's record is never deletable, and a
      non-administrator can never delete their own record. */
  lemma DeleteGuards(viewer: Option<UserInfo>, record: Employee)
    ensures record.role == Admin ==> !CanDelete(viewer, record)
    ensures viewer.Some? && viewer.value.role != Admin && viewer.value.employeeId == record.employeeId ==> !CanDelete(viewer, record)
    ensures viewer.None? ==> !CanDelete(viewer, record) && !CanEdit(viewer)
    ensures CanEdit(viewer) ==> (CanDelete(viewer, record) <==> record.role != Admin)
  {
  }

  /** One participation period of an employee in a project. */
  datatype Period = Period(startDate: Day, endDate: Option<Day>, workloadPercent: int)

  /** Latest start first. */
  predicate SortedByStartDesc(ps: seq<Period>) {
    forall i, j :: 0 <= i < j < |ps| ==> ps[i].startDate >= ps[j].startDate
  }

  /** `p` placed before the first period that does not start later, so
      that among equal starts the earlier-listed one stays first. */
  function Insert(p: Period, sorted: seq<Period>): (r: seq<Period>)
    requires SortedByStartDesc(sorted)
    ensures SortedByStartDesc(r)
    ensures multiset(r) == multiset(sorted) + multiset{p}
    ensures |r| == |sorted| + 1
    ensures r[0] == p || (sorted != [] && r[0] == sorted[0])
  {
    if sorted == [] || sorted[0].startDate <= p.startDate then
      ConsSorted(p, sorted);
      [p] + sorted
    else
      var rest := Insert(p, sorted[1..]);
      assert sorted == [sorted[0]] + sorted[1..];
      assert multiset(sorted) == multiset{sorted[0]} + multiset(sorted[1..]);
      assert multiset([sorted[0]] + rest) == multiset{sorted[0]} + multiset(rest);
      ConsSorted(sorted[0], rest);
      [sorted[0]] + rest
  }

  /** A period that starts no earlier than the head of a sorted list may
      go in front of it. */
  lemma ConsSorted(x: Period, ps: seq<Period>)
    requires SortedByStartDesc(ps)
    requires ps == [] || x.startDate >= ps[0].startDate
    ensures SortedByStartDesc([x] + ps)
  {
    var r := [x] + ps;
    forall i, j | 0 <= i < j < |r|
      ensures r[i].startDate >= r[j].startDate
    {
      if i == 0 {
        assert r[j] == ps[j - 1];
        assert j - 1 == 0 || ps[0].startDate >= ps[j - 1].startDate;
      }
    }
  }

  /** `[...participations].sort((a, b) => start(b) - start(a))`: a sorted
      copy, latest start first, with the same periods. */
  function SortByStartDesc(ps: seq<Period>): (r: seq<Period>)
    ensures SortedByStartDesc(r)
    ensures multiset(r) == multiset(ps)
    ensures |r| == |ps|
  {
    if ps == [] then []
    else
      assert ps == [ps[0]] + ps[1..];
      Insert(ps[0], SortByStartDesc(ps[1..]))
  }

  /** The participation column: the periods' dates, in display order. */
  function PeriodColumn(ps: seq<Period>): (r: seq<(Day, Option<Day>)>)
    ensures |r| == |ps|
  {
    var sorted := SortByStartDesc(ps);
    seq(|sorted|, i requires 0 <= i < |sorted| => (sorted[i].startDate, sorted[i].endDate))
  }

  /** The workload column: the periods' workloads, in display order. */
  function WorkloadColumn(ps: seq<Period>): (r: seq<int>)
    ensures |r| == |ps|
  {
    var sorted := SortByStartDesc(ps);
    seq(|sorted|, i requires 0 <= i < |sorted| => sorted[i].workloadPercent)
  }

  /** Both columns list the same periods row by row, latest start first,
      and every period of the record appears in some row. */
  lemma ColumnsAgree(ps: seq<Period>)
    ensures forall i :: 0 <= i < |ps| ==>
      Period(PeriodColumn(ps)[i].0, PeriodColumn(ps)[i].1, WorkloadColumn(ps)[i]) in ps
    ensures forall i, j :: 0 <= i < j < |ps| ==> PeriodColumn(ps)[i].0 >= PeriodColumn(ps)[j].0
    ensures forall p :: p in ps ==> exists i :: 0 <= i < |ps| && PeriodColumn(ps)[i] == (p.startDate, p.endDate) && WorkloadColumn(ps)[i] == p.workloadPercent
  {
    var sorted := SortByStartDesc(ps);
    var dates, loads := PeriodColumn(ps), WorkloadColumn(ps);
    assert forall i :: 0 <= i < |ps| ==> Period(dates[i].0, dates[i].1, loads[i]) == sorted[i];
    forall i | 0 <= i < |ps|
      ensures sorted[i] in ps
    {
      assert sorted[i] in multiset(sorted);
    }
    forall p | p in ps
      ensures exists i :: 0 <= i < |ps| && dates[i] == (p.startDate, p.endDate) && loads[i] == p.workloadPercent
    {
      assert p in multiset(ps);
      assert p in sorted;
      var i :| 0 <= i < |sorted| && sorted[i] == p;
      assert dates[i] == (p.startDate, p.endDate) && loads[i] == p.workloadPercent;
    }
  }
}
