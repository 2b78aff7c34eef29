/** The project manager's assignment form: the projects it offers, and the
    checks `handleAssign` runs on a submission before it posts the
    assignment. Dates are day numbers; a project date that cannot be read
    is `None`, and every day comparison with it is false. */
module Assignments {
  import opened Common

  /** A primitive JavaScript value the form compares with `===`/`!==`:
      strings and numbers are never strictly equal to each other, which
      Dafny's datatype equality reproduces. */
  datatype Key = Str(s: string) | Num(n: int)

  /** A project of the manager's list, as the server sends it. */
  datatype Project = Project(projectId: Option<int>, projectCode: string, startDate: Option<Day>, endDate: Option<Day>)

  /** One current member row of the chosen project. */
  datatype Member = Member(employeeCode: Key, startDate: Day, endDate: Option<Day>)

  /** The submitted form: the chosen project and employee, the workload,
      a required start date and an optional end date. */
  datatype Values = Values(projectId: int, employeeId: Key, workloadPercent: int, startDate: Day, endDate: Option<Day>)

  datatype Field = EmployeeField | StartDateField | EndDateField

  /** An error message attached to one form field. */
  datatype FieldError = FieldError(field: Field, message: string)

  /** The body posted to `/project/assign`. */
  datatype AssignRequest = AssignRequest(employeeId: Key, projectId: int, workloadPercent: int, startDate: Day, endDate: Option<Day>)

  /** How a submission ends: an unknown project (a toast, nothing else),
      field errors in the order they were set, or the request posted. */
  datatype Outcome = InvalidProject | Blocked(errors: seq<FieldError>) | Submitted(request: AssignRequest)

  const StartBeforeProjectMessage := "Assignment start date cannot be before the project start date."
  const EndAfterProjectMessage := "Assignment end date cannot be after the project end date."
  const StartAfterEndMessage := "Assignment start date cannot be after assignment end date."
  const OverlapMessage := "This employee already has an overlapping assignment period in this project."

  /** Projects kept when the list arrives: those whose id is neither null
      nor undefined, in the order received; a body that is not an array
      yields none. */
  function ValidProjects(data: Option<seq<Project>>): (r: seq<Project>)
    ensures data.None? ==> r == []
    ensures forall p :: p in r <==> data.Some? && p in data.value && p.projectId.Some?
    ensures data.Some? ==> |r| <= |data.value|
  {
    if data.Some? then KeepIdentified(data.value) else []
  }

  function KeepIdentified(ps: seq<Project>): (r: seq<Project>)
    ensures |r| <= |ps|
    ensures forall p :: p in r <==> p in ps && p.projectId.Some?
  {
    if ps == [] then []
    else (if ps[0].projectId.Some? then [ps[0]] else []) + KeepIdentified(ps[1..])
  }

  /** Filtering distributes over concatenation, so the kept projects keep
      their relative order. */
  lemma {:induction false} KeepIdentifiedAppend(a: seq<Project>, b: seq<Project>)
    ensures KeepIdentified(a + b) == KeepIdentified(a) + KeepIdentified(b)
  {
    if a == [] {
      assert a + b == b;
    } else {
      assert (a + b)[1..] == a[1..] + b;
      KeepIdentifiedAppend(a[1..], b);
    }
  }

  /** `projects.find(p => p.projectId === projectId)`: the first project
      with that id. */
  function FindProject(projects: seq<Project>, projectId: int): (r: Option<Project>)
    ensures r.None? <==> forall i :: 0 <= i < |projects| ==> projects[i].projectId != Some(projectId)
    ensures r.Some? ==> r.value in projects && r.value.projectId == Some(projectId)
    ensures r.Some? ==> exists i :: 0 <= i < |projects| && r.value == projects[i]
                                    && forall k :: 0 <= k < i ==> projects[k].projectId != Some(projectId)
  {
    if projects == [] then None
    else if projects[0].projectId == Some(projectId) then Some(projects[0])
    else
      var r := FindProject(projects[1..], projectId);
      assert r.Some? ==> exists i :: 1 <= i < |projects| && r.value == projects[i]
                                    && forall k :: 0 <= k < i ==> projects[k].projectId != Some(projectId);
      r
  }

  /** Dropping the projects without an id never changes which project an
      id selects: the filter applied on arrival and the lookup commute. */
  lemma {:induction false} FindProjectIgnoresUnidentified(projects: seq<Project>, projectId: int)
    ensures FindProject(KeepIdentified(projects), projectId) == FindProject(projects, projectId)
  {
    if projects != [] {
      FindProjectIgnoresUnidentified(projects[1..], projectId);
      if projects[0].projectId.Some? {
        assert KeepIdentified(projects) == [projects[0]] + KeepIdentified(projects[1..]);
        assert ([projects[0]] + KeepIdentified(projects[1..]))[1..] == KeepIdentified(projects[1..]);
      } else {
        assert KeepIdentified(projects) == KeepIdentified(projects[1..]);
      }
    }
  }

  /** `assignStart.isBefore(projectStart, 'day')`. */
  predicate StartsBeforeProject(v: Values, p: Project) {
    p.startDate.Some? && v.startDate < p.startDate.value
  }

  /** `assignEnd && assignEnd.isAfter(projectEnd, 'day')`. */
  predicate EndsAfterProject(v: Values, p: Project) {
    v.endDate.Some? && p.endDate.Some? && v.endDate.value > p.endDate.value
  }

  /** `assignEnd && assignStart.isAfter(assignEnd, 'day')`. */
  predicate StartsAfterEnd(v: Values) {
    v.endDate.Some? && v.startDate > v.endDate.value
  }

  /** The overlap rule between the new period and an existing one, each
      with an optional end; every comparison includes its bound. */
  predicate PeriodsOverlap(start: Day, end: Option<Day>, mStart: Day, mEnd: Option<Day>) {
    if end.None? then
      if mEnd.None? then start == mStart
      else start <= mEnd.value && start >= mStart
    else if mEnd.None? then end.value >= mStart
    else start <= mEnd.value && end.value >= mStart
  }

  /** `members.some(...)`: some member with the chosen employee's key has
      a period overlapping the new one. */
  function AnyOverlap(members: seq<Member>, v: Values): (r: bool)
    ensures r <==> exists i :: 0 <= i < |members| && members[i].employeeCode == v.employeeId
                              && PeriodsOverlap(v.startDate, v.endDate, members[i].startDate, members[i].endDate)
  {
    if members == [] then false
    else
      var m := members[0];
      var here := m.employeeCode == v.employeeId && PeriodsOverlap(v.startDate, v.endDate, m.startDate, m.endDate);
      var rest := AnyOverlap(members[1..], v);
      assert rest ==> exists i :: 1 <= i < |members| && members[i].employeeCode == v.employeeId
                                 && PeriodsOverlap(v.startDate, v.endDate, members[i].startDate, members[i].endDate);
      here || rest
  }

  /** The field errors of a submission against its project, in the order
      the handler sets them; every check runs. */
  function Errors(p: Project, members: seq<Member>, v: Values): (r: seq<FieldError>)
    ensures |r| <= 4
    ensures FieldError(StartDateField, StartBeforeProjectMessage) in r <==> StartsBeforeProject(v, p)
    ensures FieldError(EndDateField, EndAfterProjectMessage) in r <==> EndsAfterProject(v, p)
    ensures FieldError(StartDateField, StartAfterEndMessage) in r <==> StartsAfterEnd(v)
    ensures FieldError(EmployeeField, OverlapMessage) in r <==> AnyOverlap(members, v)
    ensures r == [] <==> !StartsBeforeProject(v, p) && !EndsAfterProject(v, p) && !StartsAfterEnd(v) && !AnyOverlap(members, v)
  {
    (if StartsBeforeProject(v, p) then [FieldError(StartDateField, StartBeforeProjectMessage)] else [])
    + (if EndsAfterProject(v, p) then [FieldError(EndDateField, EndAfterProjectMessage)] else [])
    + (if StartsAfterEnd(v) then [FieldError(StartDateField, StartAfterEndMessage)] else [])
    + (if AnyOverlap(members, v) then [FieldError(EmployeeField, OverlapMessage)] else [])
  }

  /** `handleAssign(values)` with the loaded projects and members. */
  function HandleAssign(projects: seq<Project>, members: seq<Member>, v: Values): (r: Outcome)
    ensures r.InvalidProject? <==> forall i :: 0 <= i < |projects| ==> projects[i].projectId != Some(v.projectId)
    ensures r.Submitted? ==>
      && r.request == AssignRequest(v.employeeId, v.projectId, v.workloadPercent, v.startDate, v.endDate)
      && exists p :: p in projects && p.projectId == Some(v.projectId)
                     && !StartsBeforeProject(v, p) && !EndsAfterProject(v, p) && !StartsAfterEnd(v) && !AnyOverlap(members, v)
    ensures r.Blocked? ==> r.errors != [] && |r.errors| <= 4
    ensures !r.InvalidProject? ==> var p := FindProject(projects, v.projectId).value;
      && (r.Submitted? <==> !StartsBeforeProject(v, p) && !EndsAfterProject(v, p) && !StartsAfterEnd(v) && !AnyOverlap(members, v))
      && (r.Blocked? ==>
            && (FieldError(StartDateField, StartBeforeProjectMessage) in r.errors <==> StartsBeforeProject(v, p))
            && (FieldError(EndDateField, EndAfterProjectMessage) in r.errors <==> EndsAfterProject(v, p))
            && (FieldError(StartDateField, StartAfterEndMessage) in r.errors <==> StartsAfterEnd(v))
            && (FieldError(EmployeeField, OverlapMessage) in r.errors <==> AnyOverlap(members, v)))
  {
    match FindProject(projects, v.projectId)
    case None => InvalidProject
    case Some(p) =>
      var errors := Errors(p, members, v);
      if errors != [] then Blocked(errors)
      else Submitted(AssignRequest(v.employeeId, p.projectId.value, v.workloadPercent, v.startDate, v.endDate))
  }

  /** The message a field finally shows: the last one set for it. */
  function Shown(errors: seq<FieldError>, f: Field): Option<string> {
    if errors == [] then None
    else if errors[|errors| - 1].field == f then Some(errors[|errors| - 1].message)
    else Shown(errors[..|errors| - 1], f)
  }

  /** When the start date is both before the project and after the
      assignment's end, the start-date field shows only the second
      message, because the later `setFields` call replaces the first. */
  lemma StartFieldShowsLastError(projects: seq<Project>, members: seq<Member>, v: Values)
    requires HandleAssign(projects, members, v).Blocked?
    requires var p := FindProject(projects, v.projectId).value; StartsBeforeProject(v, p) && StartsAfterEnd(v)
    ensures Shown(HandleAssign(projects, members, v).errors, StartDateField) == Some(StartAfterEndMessage)
  {
    var p := FindProject(projects, v.projectId).value;
    var errors := Errors(p, members, v);
    var tail := if AnyOverlap(members, v) then [FieldError(EmployeeField, OverlapMessage)] else [];
    var init := errors[..|errors| - |tail|];
    assert init[|init| - 1] == FieldError(StartDateField, StartAfterEndMessage);
    if tail != [] {
      assert errors[..|errors| - 1] == init;
    }
  }

  /** The set of days a period covers; an open period covers every day
      from its start. */
  predicate Covers(start: Day, end: Option<Day>, d: Day) {
    start <= d && (end.None? || d <= end.value)
  }

  /** A period whose end, when given, is not before its start. */
  predicate WellFormed(start: Day, end: Option<Day>) {
    end.None? || start <= end.value
  }

  /** The rule flags only periods that really share a day. */
  lemma OverlapIsSound(start: Day, end: Option<Day>, mStart: Day, mEnd: Option<Day>)
    requires WellFormed(start, end) && WellFormed(mStart, mEnd)
    requires PeriodsOverlap(start, end, mStart, mEnd)
    ensures exists d :: Covers(start, end, d) && Covers(mStart, mEnd, d)
  {
    var d := if start >= mStart then start else mStart;
    assert Covers(start, end, d) && Covers(mStart, mEnd, d);
  }

  /** When the new period has an end date the rule is exact: it flags
      every existing period sharing a day with it. */
  lemma OverlapExactWhenBounded(start: Day, end: Day, mStart: Day, mEnd: Option<Day>, d: Day)
    requires Covers(start, Some(end), d) && Covers(mStart, mEnd, d)
    ensures PeriodsOverlap(start, Some(end), mStart, mEnd)
  {
  }

  /** An open-ended new period is flagged exactly when an existing bounded
      period contains its start day; both open, exactly when they start on
      the same day. So an open period starting before an existing one, or
      two open periods with different starts, pass although they share
      days. */
  lemma OpenEndedRule(start: Day, mStart: Day, mEnd: Option<Day>)
    ensures mEnd.Some? ==> (PeriodsOverlap(start, None, mStart, mEnd) <==> Covers(mStart, mEnd, start))
    ensures mEnd.None? ==> (PeriodsOverlap(start, None, mStart, mEnd) <==> start == mStart)
    ensures start < mStart && mEnd.Some? && mStart <= mEnd.value ==>
      !PeriodsOverlap(start, None, mStart, mEnd) && Covers(start, None, mStart) && Covers(mStart, mEnd, mStart)
    ensures start != mStart && mEnd.None? ==>
      !PeriodsOverlap(start, None, mStart, mEnd) && Covers(start, None, Max(start, mStart)) && Covers(mStart, mEnd, Max(start, mStart))
  {
  }

  function Max(a: int, b: int): int {
    if a >= b then a else b
  }

  /** Members are matched by strict equality of `employeeCode` with the
      chosen `employeeId`. The member rows carry string codes while the
      search result puts a numeric id into the form, so no member ever
      matches and the overlap error is never raised. */
  lemma NumericSelectionMatchesNoCode(members: seq<Member>, v: Values)
    requires forall i :: 0 <= i < |members| ==> members[i].employeeCode.Str?
    requires v.employeeId.Num?
    ensures !AnyOverlap(members, v)
  {
  }

  /** With a numeric selection, an exact repeat of an existing string-keyed
      member period inside the project's bounds is submitted. */
  lemma DuplicatePeriodSubmitted()
    ensures var p := Project(Some(7), "P7", Some(0), Some(100));
            var m := Member(Str("EMP001"), 10, Some(20));
            var v := Values(7, Num(1), 50, 10, Some(20));
            HandleAssign([p], [m], v).Submitted?
  {
    var v := Values(7, Num(1), 50, 10, Some(20));
    NumericSelectionMatchesNoCode([Member(Str("EMP001"), 10, Some(20))], v);
  }

  /** A submission whose selection is keyed like the member rows is
      rejected when it overlaps one of that employee's periods. */
  lemma SameKeyOverlapRejected(projects: seq<Project>, members: seq<Member>, v: Values, i: int)
    requires exists j :: 0 <= j < |projects| && projects[j].projectId == Some(v.projectId)
    requires 0 <= i < |members| && members[i].employeeCode == v.employeeId
    requires PeriodsOverlap(v.startDate, v.endDate, members[i].startDate, members[i].endDate)
    ensures HandleAssign(projects, members, v).Blocked?
    ensures FieldError(EmployeeField, OverlapMessage) in HandleAssign(projects, members, v).errors
  {
  }
}
