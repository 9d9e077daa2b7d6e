/** The state of the dashboard shell (App.tsx): the roster of students, the
    active student, the role and view, and the AI-insight requests that
    seeding, editing and the `setTimeout`-delayed refresh trigger. The AI
    call itself is a parameter: `Some(result)` when it answers, `None` when
    it throws (the error is logged and the roster is left alone). */
module AppState {
  import opened Types
  import opened Navigation
  import opened DataGenerator

  const DefaultStudentId: string := "default-01"

  /** The ids of a roster, in order. */
  function StudentIds(ss: seq<Student>): seq<string>
  {
    seq(|ss|, i requires 0 <= i < |ss| => ss[i].id)
  }

  /** No two records of the roster share an id. */
  predicate UniqueIds(ss: seq<Student>)
  {
    forall i, j :: 0 <= i < j < |ss| ==> ss[i].id != ss[j].id
  }

  /** The index of the first record with the id, or `|ss|` when there is none. */
  function FirstWithId(ss: seq<Student>, id: string): (k: nat)
    ensures k <= |ss|
    ensures k < |ss| ==> ss[k].id == id
  {
    if ss == [] then 0
    else if ss[0].id == id then 0
    else 1 + FirstWithId(ss[1..], id)
  }

  /** No record before that index has the id. */
  lemma {:induction false} FirstWithIdIsFirst(ss: seq<Student>, id: string)
    ensures forall j :: 0 <= j < FirstWithId(ss, id) ==> ss[j].id != id
  {
    if ss != [] && ss[0].id != id {
      FirstWithIdIsFirst(ss[1..], id);
      forall j | 1 <= j < FirstWithId(ss, id)
        ensures ss[j].id != id
      {
        assert ss[j] == ss[1..][j - 1];
      }
    }
  }

  /** `students.find(s => s.id === id)`. */
  function FindById(ss: seq<Student>, id: string): (r: Option<Student>)
    ensures r.Some? ==> r.value.id == id
  {
    var k := FirstWithId(ss, id);
    if k < |ss| then Some(ss[k]) else None
  }

  /** `find` answers nothing exactly when no record has the id, and
      otherwise the first record that has it. */
  lemma FindByIdFirstMatch(ss: seq<Student>, id: string)
    ensures FindById(ss, id).None? <==> forall k :: 0 <= k < |ss| ==> ss[k].id != id
    ensures FindById(ss, id).Some? ==>
              exists k :: 0 <= k < |ss| && ss[k] == FindById(ss, id).value
                          && forall j :: 0 <= j < k ==> ss[j].id != id
  {
    FirstWithIdIsFirst(ss, id);
    var k := FirstWithId(ss, id);
    if k < |ss| {
      assert ss[k] == FindById(ss, id).value;
    }
  }

  /** `students.find(s => s.id === id) || students[0]`: the record with the
      active id, else the first record; nothing only for an empty roster. */
  function ActiveOf(ss: seq<Student>, id: string): (r: Option<Student>)
    ensures r.Some? <==> ss != []
  {
    var found := FindById(ss, id);
    if found.Some? then found else if ss == [] then None else Some(ss[0])
  }

  /** The active record is a record of the roster: the first record with
      the active id when some record has it, and otherwise the first record. */
  lemma ActiveOfPrefersMatch(ss: seq<Student>, id: string)
    ensures ActiveOf(ss, id).Some? ==> ActiveOf(ss, id).value in ss
    ensures (exists k :: 0 <= k < |ss| && ss[k].id == id) ==> ActiveOf(ss, id).Some? && ActiveOf(ss, id).value.id == id
    ensures (exists k :: 0 <= k < |ss| && ss[k].id == id) ==> ActiveOf(ss, id) == FindById(ss, id)
    ensures ss != [] && (forall k :: 0 <= k < |ss| ==> ss[k].id != id) ==> ActiveOf(ss, id) == Some(ss[0])
  {
    FindByIdFirstMatch(ss, id);
    var k := FirstWithId(ss, id);
    if k < |ss| {
      assert ActiveOf(ss, id).value == ss[k];
    } else if ss != [] {
      assert ActiveOf(ss, id).value == ss[0];
    }
  }

  /** The active record is also the first record with its own id, so an
      update by that id schedules the refresh for it. */
  lemma ActiveFoundByOwnId(ss: seq<Student>, id: string)
    requires ss != []
    ensures FindById(ss, ActiveOf(ss, id).value.id) == ActiveOf(ss, id)
  {
    var a := ActiveOf(ss, id).value;
    var k := FirstWithId(ss, id);
    FirstWithIdIsFirst(ss, id);
    FirstWithIdIsFirst(ss, a.id);
    var i := FirstWithId(ss, a.id);
    if k < |ss| {
      assert a == ss[k];
      assert i <= k;
      assert ss[i].id == id;
      assert i == k;
    } else {
      assert a == ss[0];
      assert i == 0;
    }
  }

  /** `ss.map(s => s.id === id ? { ...s, ...p } : s)`. */
  function MergeById(ss: seq<Student>, id: string, p: StudentPatch): (r: seq<Student>)
    ensures |r| == |ss|
  {
    if ss == [] then []
    else [if ss[0].id == id then ApplyPatch(ss[0], p) else ss[0]] + MergeById(ss[1..], id, p)
  }

  /** The merge patches every record with the id, leaves every other record
      as it is, and keeps the order. */
  lemma {:induction false} MergeByIdAt(ss: seq<Student>, id: string, p: StudentPatch)
    ensures forall k :: 0 <= k < |ss| ==>
              MergeById(ss, id, p)[k] == if ss[k].id == id then ApplyPatch(ss[k], p) else ss[k]
  {
    if ss != [] {
      MergeByIdAt(ss[1..], id, p);
      var r := MergeById(ss, id, p);
      forall k | 1 <= k < |ss|
        ensures r[k] == if ss[k].id == id then ApplyPatch(ss[k], p) else ss[k]
      {
        assert r[k] == MergeById(ss[1..], id, p)[k - 1];
        assert ss[k] == ss[1..][k - 1];
      }
    }
  }

  /** The patch leaves the id of a record with id `id` as it is. */
  predicate KeepsId(p: StudentPatch, id: string)
  {
    p.id.None? || p.id.value == id
  }

  /** Two rosters with the same ids find the same first index. */
  lemma FirstWithIdByIds(a: seq<Student>, b: seq<Student>, id: string)
    requires StudentIds(a) == StudentIds(b)
    ensures FirstWithId(a, id) == FirstWithId(b, id)
  {
    assert |a| == |StudentIds(a)| == |b|;
    assert forall k :: 0 <= k < |a| ==> a[k].id == StudentIds(a)[k] == b[k].id;
    FirstWithIdIsFirst(a, id);
    FirstWithIdIsFirst(b, id);
    var i, j := FirstWithId(a, id), FirstWithId(b, id);
    assert i < |a| ==> j <= i;
    assert j < |b| ==> i <= j;
  }

  /** Merging a patch that keeps the id keeps every id in place. */
  lemma MergeKeepsIds(ss: seq<Student>, id: string, p: StudentPatch)
    requires KeepsId(p, id)
    ensures StudentIds(MergeById(ss, id, p)) == StudentIds(ss)
  {
    MergeByIdAt(ss, id, p);
    var r := MergeById(ss, id, p);
    assert forall k :: 0 <= k < |ss| ==> StudentIds(r)[k] == r[k].id == ss[k].id == StudentIds(ss)[k];
  }

  /** Updating an id that no record has changes nothing. */
  lemma MergeUnknownIdNoop(ss: seq<Student>, id: string, p: StudentPatch)
    requires FindById(ss, id).None?
    ensures MergeById(ss, id, p) == ss
  {
    FindByIdFirstMatch(ss, id);
    MergeByIdAt(ss, id, p);
  }

  /** With a patch that keeps the id, the record found under the id after
      the update is the one found before, patched: the record the delayed
      refresh is scheduled for. */
  lemma FindAfterMerge(ss: seq<Student>, id: string, p: StudentPatch)
    requires KeepsId(p, id)
    ensures FindById(MergeById(ss, id, p), id)
            == if FindById(ss, id).Some? then Some(ApplyPatch(FindById(ss, id).value, p)) else None
  {
    MergeKeepsIds(ss, id, p);
    MergeByIdAt(ss, id, p);
    FirstWithIdByIds(MergeById(ss, id, p), ss, id);
  }

  /** A patch that gives the record another id leaves nothing under the old
      id, so no refresh is scheduled. */
  lemma MergeRenamingLosesId(ss: seq<Student>, id: string, p: StudentPatch)
    requires p.id.Some? && p.id.value != id
    ensures FindById(MergeById(ss, id, p), id).None?
  {
    MergeByIdAt(ss, id, p);
    FindByIdFirstMatch(MergeById(ss, id, p), id);
  }

  /** An id-keeping update keeps the ids unique. */
  lemma MergeKeepsUniqueIds(ss: seq<Student>, id: string, p: StudentPatch)
    requires KeepsId(p, id) && UniqueIds(ss)
    ensures UniqueIds(MergeById(ss, id, p))
  {
    MergeKeepsIds(ss, id, p);
    var r := MergeById(ss, id, p);
    assert forall k :: 0 <= k < |ss| ==> r[k].id == StudentIds(r)[k] == StudentIds(ss)[k] == ss[k].id;
  }

  /** Merging an AI result sets the insight of the records with the id and
      changes nothing else. */
  lemma InsightMergeOnlySetsInsight(ss: seq<Student>, id: string, result: Insight)
    ensures var r := MergeById(ss, id, InsightPatch(result));
            && StudentIds(r) == StudentIds(ss)
            && forall k :: 0 <= k < |ss| ==> r[k] == if ss[k].id == id then ss[k].(insight := Some(result)) else ss[k]
  {
    MergeKeepsIds(ss, id, InsightPatch(result));
    MergeByIdAt(ss, id, InsightPatch(result));
    forall k | 0 <= k < |ss| && ss[k].id == id
      ensures MergeById(ss, id, InsightPatch(result))[k] == ss[k].(insight := Some(result))
    {
      InsightPatchOnlySetsInsight(ss[k], result);
    }
  }

  /** An AI result merged under the active record's id lands on the active
      record, whether it was found by the active id or was the fallback
      first record. */
  lemma InsightMergeReachesActive(ss: seq<Student>, activeId: string, result: Insight)
    requires ss != []
    ensures var a := ActiveOf(ss, activeId).value;
            ActiveOf(MergeById(ss, a.id, InsightPatch(result)), activeId) == Some(a.(insight := Some(result)))
  {
    var a := ActiveOf(ss, activeId).value;
    var r := MergeById(ss, a.id, InsightPatch(result));
    InsightMergeOnlySetsInsight(ss, a.id, result);
    FirstWithIdByIds(r, ss, activeId);
    var k := FirstWithId(ss, activeId);
    if k == |ss| {
      assert a == ss[0];
    } else {
      assert a == ss[k];
    }
  }

  /** The record `addStudent` appends: no age, grade or focus area, empty
      remarks, freshly generated data and no insight yet. */
  function NewStudent(name: string, id: string, data: seq<EngagementPoint>, metrics: AcademicMetrics): Student
  {
    Student(id, name, None, None, None, "", data, metrics, None)
  }

  /** The seeded record of a first visit. */
  function InitialStudent(data: seq<EngagementPoint>, metrics: AcademicMetrics): Student
  {
    Student(DefaultStudentId, "Julian Vance", Some("16"), Some("11th"), Some("Mathematics & Logic"),
            "Showing steady progress in rhythmic focus.", data, metrics, None)
  }

  /** A roster of one record: that record is active under its own id. */
  lemma SingleRosterActive(s: Student)
    ensures ActiveOf([s], s.id) == Some(s)
  {
    assert FirstWithId([s], s.id) == 0;
  }

  /** An appended record with a fresh id is what the id then finds. */
  lemma FindFreshAppended(ss: seq<Student>, s: Student)
    requires s.id !in StudentIds(ss)
    ensures FindById(ss + [s], s.id) == Some(s)
    ensures ActiveOf(ss + [s], s.id) == Some(s)
  {
    var t := ss + [s];
    assert forall k :: 0 <= k < |ss| ==> t[k].id == StudentIds(ss)[k] != s.id;
    FirstWithIdIsFirst(t, s.id);
    var i := FirstWithId(t, s.id);
    assert t[|ss|] == s;
    assert i == |ss|;
  }

  /** Appending a record with a fresh id keeps the ids unique. */
  lemma AppendFreshKeepsUniqueIds(ss: seq<Student>, s: Student)
    requires UniqueIds(ss) && s.id !in StudentIds(ss)
    ensures UniqueIds(ss + [s])
  {
    assert forall k :: 0 <= k < |ss| ==> ss[k].id == StudentIds(ss)[k] != s.id;
  }

  /** The shell's state. `pendingRefresh` holds, oldest first, the records
      whose forced insight refresh a `setTimeout` has scheduled and that
      has not fired yet. */
  class App {
    var userRole: UserRole
    var students: seq<Student>
    var activeStudentId: string
    var currentView: ViewType
    var isLoading: bool
    var pendingRefresh: seq<Student>

    /** The current view is one the role can see, and no request is in
        flight between two operations. */
    predicate Valid()
      reads this
    {
      ViewIsVisible(userRole, currentView) && !isLoading
    }

    /** `activeStudent`. */
    function ActiveStudent(): Option<Student>
      reads this
    {
      ActiveOf(students, activeStudentId)
    }

    /** The initial state: the saved roster, active id and role when storage
        has them (an empty string counts as absent for the id and the role),
        else a roster of the one seeded record, "default-01" and the teacher
        role; the view starts at the dashboard. */
    constructor (savedStudents: Option<seq<Student>>, savedActiveId: Option<string>, savedRole: Option<UserRole>,
                 dataDraws: seq<real>, metricDraws: seq<real>)
      requires |dataDraws| == 3 * |Days| && AllDraws(dataDraws)
      requires |metricDraws| == 7 && AllDraws(metricDraws)
      ensures Valid()
      ensures userRole == if savedRole.Some? then savedRole.value else TeacherRole
      ensures students == if savedStudents.Some? then savedStudents.value
                          else [InitialStudent(GenerateSyntheticData(dataDraws), GenerateAcademicMetrics(metricDraws))]
      ensures activeStudentId == if savedActiveId.Some? && savedActiveId.value != "" then savedActiveId.value
                                 else DefaultStudentId
      ensures currentView == DashboardView && pendingRefresh == []
      ensures savedStudents.None? && savedActiveId.None? ==>
                ActiveStudent() == Some(InitialStudent(GenerateSyntheticData(dataDraws), GenerateAcademicMetrics(metricDraws)))
    {
      var seeded := InitialStudent(GenerateSyntheticData(dataDraws), GenerateAcademicMetrics(metricDraws));
      var role := if savedRole.Some? then savedRole.value else TeacherRole;
      SingleRosterActive(seeded);
      ShortcutViewsVisible(role);
      userRole := role;
      students := if savedStudents.Some? then savedStudents.value else [seeded];
      activeStudentId := if savedActiveId.Some? && savedActiveId.value != "" then savedActiveId.value
                         else DefaultStudentId;
      currentView := DashboardView;
      isLoading := false;
      pendingRefresh := [];
    }

    /** `initInsight(student, force)`: skipped when the record already has an
        insight and the call is not forced; otherwise the answer, if any, is
        merged under the record's id into the current roster, and loading
        ends either way. */
    method InitInsight(student: Student, force: bool, outcome: Option<Insight>) returns (requested: bool)
      requires Valid()
      modifies this
      ensures Valid()
      ensures requested <==> student.insight.None? || force
      ensures students == if requested && outcome.Some?
                          then MergeById(old(students), student.id, InsightPatch(outcome.value))
                          else old(students)
      ensures userRole == old(userRole) && activeStudentId == old(activeStudentId)
      ensures currentView == old(currentView) && pendingRefresh == old(pendingRefresh)
    {
      if student.insight.Some? && !force {
        return false;
      }
      isLoading := true;
      if outcome.Some? {
        students := MergeById(students, student.id, InsightPatch(outcome.value));
      }
      isLoading := false;
      requested := true;
    }

    /** The effect on `activeStudent`: an active record without an insight
        gets one requested, and an answer lands on that active record. */
    method InsightEffect(outcome: Option<Insight>) returns (requested: bool)
      requires Valid()
      modifies this
      ensures Valid()
      ensures requested <==> old(ActiveStudent()).Some? && old(ActiveStudent()).value.insight.None?
      ensures requested && outcome.Some? ==>
                students == MergeById(old(students), old(ActiveStudent()).value.id, InsightPatch(outcome.value))
      ensures requested && outcome.Some? ==>
                ActiveStudent() == Some(old(ActiveStudent()).value.(insight := outcome))
      ensures !(requested && outcome.Some?) ==> students == old(students)
      ensures userRole == old(userRole) && activeStudentId == old(activeStudentId)
      ensures currentView == old(currentView) && pendingRefresh == old(pendingRefresh)
    {
      var active := ActiveStudent();
      if active.Some? && active.value.insight.None? {
        requested := InitInsight(active.value, false, outcome);
        if outcome.Some? {
          InsightMergeReachesActive(old(students), activeStudentId, outcome.value);
        }
      } else {
        requested := false;
      }
    }

    /** `updateStudent(id, updates)`: the patch is merged into every record
        with the id, and a forced refresh is scheduled for the first record
        that still has the id afterwards, if any. */
    method UpdateStudent(id: string, patch: StudentPatch) returns (scheduled: Option<Student>)
      requires Valid()
      modifies this
      ensures Valid()
      ensures students == MergeById(old(students), id, patch)
      ensures scheduled == FindById(students, id)
      ensures pendingRefresh == old(pendingRefresh) + if scheduled.Some? then [scheduled.value] else []
      ensures userRole == old(userRole) && activeStudentId == old(activeStudentId)
      ensures currentView == old(currentView)
      ensures KeepsId(patch, id) ==>
                scheduled == if FindById(old(students), id).Some?
                             then Some(ApplyPatch(FindById(old(students), id).value, patch)) else None
    {
      var merged := MergeById(students, id, patch);
      if KeepsId(patch, id) {
        FindAfterMerge(students, id, patch);
      }
      scheduled := FindById(merged, id);
      students := merged;
      if scheduled.Some? {
        pendingRefresh := pendingRefresh + [scheduled.value];
      }
    }

    /** The teacher portal's save: `updateStudent(activeStudent.id, updates)`. */
    method UpdateActiveStudent(patch: StudentPatch) returns (scheduled: Option<Student>)
      requires Valid() && ActiveStudent().Some?
      modifies this
      ensures Valid()
      ensures students == MergeById(old(students), old(ActiveStudent()).value.id, patch)
      ensures scheduled == FindById(students, old(ActiveStudent()).value.id)
      ensures KeepsId(patch, old(ActiveStudent()).value.id) ==>
                scheduled == Some(ApplyPatch(old(ActiveStudent()).value, patch))
      ensures pendingRefresh == old(pendingRefresh) + if scheduled.Some? then [scheduled.value] else []
      ensures userRole == old(userRole) && activeStudentId == old(activeStudentId)
      ensures currentView == old(currentView)
    {
      var active := ActiveStudent().value;
      ActiveFoundByOwnId(students, activeStudentId);
      scheduled := UpdateStudent(active.id, patch);
    }

    /** The delayed refresh fires: a forced `initInsight` on the record as it
        was when the update scheduled it. */
    method FireRefresh(outcome: Option<Insight>)
      requires Valid() && pendingRefresh != []
      modifies this
      ensures Valid()
      ensures pendingRefresh == old(pendingRefresh[1..])
      ensures students == if outcome.Some?
                          then MergeById(old(students), old(pendingRefresh[0]).id, InsightPatch(outcome.value))
                          else old(students)
      ensures userRole == old(userRole) && activeStudentId == old(activeStudentId)
      ensures currentView == old(currentView)
    {
      var due := pendingRefresh[0];
      pendingRefresh := pendingRefresh[1..];
      var requested := InitInsight(due, true, outcome);
    }

    /** `addStudent(name)`: a new record under `newId` (the source's
        `std-${Date.now()}`) is appended and becomes the active one. */
    method AddStudent(name: string, newId: string, dataDraws: seq<real>, metricDraws: seq<real>)
      requires Valid()
      requires |dataDraws| == 3 * |Days| && AllDraws(dataDraws)
      requires |metricDraws| == 7 && AllDraws(metricDraws)
      modifies this
      ensures Valid()
      ensures students == old(students)
                          + [NewStudent(name, newId, GenerateSyntheticData(dataDraws), GenerateAcademicMetrics(metricDraws))]
      ensures activeStudentId == newId
      ensures newId !in StudentIds(old(students)) ==>
                ActiveStudent() == Some(NewStudent(name, newId, GenerateSyntheticData(dataDraws), GenerateAcademicMetrics(metricDraws)))
      ensures newId !in StudentIds(old(students)) && UniqueIds(old(students)) ==> UniqueIds(students)
      ensures userRole == old(userRole) && currentView == old(currentView) && pendingRefresh == old(pendingRefresh)
    {
      var s := NewStudent(name, newId, GenerateSyntheticData(dataDraws), GenerateAcademicMetrics(metricDraws));
      if newId !in StudentIds(students) {
        FindFreshAppended(students, s);
        if UniqueIds(students) {
          AppendFreshKeepsUniqueIds(students, s);
        }
      }
      students := students + [s];
      activeStudentId := newId;
    }

    /** The roster selector: `setActiveStudentId(id)`, unchecked. */
    method SelectStudent(id: string)
      requires Valid()
      modifies this
      ensures Valid()
      ensures activeStudentId == id
      ensures students == old(students) && userRole == old(userRole)
      ensures currentView == old(currentView) && pendingRefresh == old(pendingRefresh)
    {
      activeStudentId := id;
    }

    /** `handleRoleChange(role)`: the role changes and the view returns to the
        dashboard, which every role sees. */
    method HandleRoleChange(role: UserRole)
      requires Valid()
      modifies this
      ensures Valid()
      ensures userRole == role && currentView == DashboardView
      ensures students == old(students) && activeStudentId == old(activeStudentId)
      ensures pendingRefresh == old(pendingRefresh)
    {
      userRole := role;
      currentView := DashboardView;
    }

    /** `setCurrentView(view)` from a navigation button or a dashboard
        shortcut; every caller offers only views the role sees. */
    method SetView(view: ViewType)
      requires Valid() && ViewIsVisible(userRole, view)
      modifies this
      ensures Valid()
      ensures currentView == view
      ensures students == old(students) && activeStudentId == old(activeStudentId)
      ensures userRole == old(userRole) && pendingRefresh == old(pendingRefresh)
    {
      currentView := view;
    }

    /** `handleNextView`: the next visible view, wrapping to the dashboard. */
    method HandleNextView()
      requires Valid()
      modifies this
      ensures Valid()
      ensures currentView == NextView(userRole, old(currentView))
      ensures students == old(students) && activeStudentId == old(activeStudentId)
      ensures userRole == old(userRole) && pendingRefresh == old(pendingRefresh)
    {
      NextViewIsVisible(userRole, currentView);
      currentView := NextView(userRole, currentView);
    }
  }
}
