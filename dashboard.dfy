/**
 * The admin dashboard's handlers (components/dashboard-page.tsx) over its React state:
 * the simplified timetable view, the group timetable dialog, and the student, group and
 * timetable-entry lists that the handlers update after a request succeeds.
 *
 * Each request to the server is a parameter: the outcome the server gave (`None` when the
 * request threw). Every `alert(...)` is appended to `alerts`.
 */
module Dashboard {
  import opened Wrappers
  import opened Seqs
  import opened Timetable
  import opened Text

  datatype Student = Student(id: string, full_name: string, email: string, registration_number: string)

  /** The add-student form: `{ full_name, email, password, registration_number }`. */
  datatype StudentDraft = StudentDraft(full_name: string, email: string, password: string, registration_number: string)

  /** The add-group form; `year` is the text typed into the field. */
  datatype GroupDraft = GroupDraft(name: string, year: string)

  /** The manual timetable-entry form: five ids chosen from drop-downs. */
  datatype EntryDraft = EntryDraft(
    course_id: string,
    faculty_id: string,
    classroom_id: string,
    time_slot_id: string,
    student_group_id: string)

  /** What `POST /students` gave back: a thrown request, or a body with or without `student`. */
  datatype AddOutcome = Rejected | Created(student: Option<Student>)

  /**
   * A request the handlers send through the API client. A group's `year` is the form text read
   * with `parseInt(year, 10)`; `None` is the `NaN` that goes out as `null`.
   */
  datatype Request =
    | PostGroup(name: string, year: Option<int>)
    | PutStudent(id: string, full_name: string, email: string, registration_number: string)
    | DeleteStudentRequest(id: string)
    | PostEntry(entry: EntryDraft)
    | GetTimetable
    | PostStudent(student: StudentDraft)

  /** What `handleCreateTimetable`'s two requests gave: the post threw, the refetch threw, or the new list. */
  datatype CreateOutcome = PostFailed | RefetchFailed | Refetched(entries: seq<Entry>)

  /** The body `handleCreateGroup` posts: the name, and the year read as a decimal integer. */
  function GroupRequest(draft: GroupDraft): (r: Request)
    ensures r.PostGroup? && r.name == draft.name
    ensures forall y: nat :: draft.year == NatToString(y) ==> r.year == Some(y)
    ensures r.year.None? <==> DigitPrefix(Unsigned(TrimStart(draft.year))) == []
  {
    forall y: nat | draft.year == NatToString(y)
      ensures ParseInt(draft.year) == Some(y)
    {
      ParseIntReadsNumeral(y, []);
      assert NatToString(y) + [] == NatToString(y);
    }
    PostGroup(draft.name, ParseInt(draft.year))
  }

  /** The body `handleUpdateStudent` puts: the edited student's three editable fields, under its id. */
  function UpdateRequest(student: Student): (r: Request)
    ensures r.PutStudent? && r.id == student.id
    ensures Student(r.id, r.full_name, r.email, r.registration_number) == student
  {
    PutStudent(student.id, student.full_name, student.email, student.registration_number)
  }

  const EmptyStudentDraft := StudentDraft("", "", "", "")
  const EmptyGroupDraft := GroupDraft("", "")
  const EmptyEntryDraft := EntryDraft("", "", "", "", "")

  const GroupMissingFields := "Please provide a group name and year."
  const GroupCreateFailed := "Failed to create student group. The name may already exist."
  const StudentUpdateFailed := "Failed to update student."
  const StudentDeleteFailed := "Failed to delete student."
  const EntryMissingFields := "Please fill out all fields."
  const EntryCreateFailed := "Failed to create timetable entry. Conflict likely."
  const StudentMissingFields := "Please fill out all required fields."
  const StudentListFailed := "Student was created, but an error occurred updating the list."
  const StudentCreateFailed := "Failed to add student. The email or registration number may already exist."

  // ---------------------------------------------------------------------------
  // Validation

  /** `Object.values(newTimetableEntry)`, in declaration order. */
  function DraftValues(d: EntryDraft): seq<string> {
    [d.course_id, d.faculty_id, d.classroom_id, d.time_slot_id, d.student_group_id]
  }

  /** `Object.values(newTimetableEntry).every(field => field)`: a string is truthy iff it is non-empty. */
  predicate DraftComplete(d: EntryDraft) {
    forall k :: 0 <= k < |DraftValues(d)| ==> DraftValues(d)[k] != ""
  }

  /** The draft may be posted exactly when none of the five ids is empty. */
  lemma DraftCompleteIff(d: EntryDraft)
    ensures DraftComplete(d) <==>
              d.course_id != "" && d.faculty_id != "" && d.classroom_id != ""
              && d.time_slot_id != "" && d.student_group_id != ""
  {
    var v := DraftValues(d);
    if DraftComplete(d) {
      assert v[0] != "" && v[1] != "" && v[2] != "" && v[3] != "" && v[4] != "";
    } else {
      var k :| 0 <= k < 5 && v[k] == "";
      assert k == 0 || k == 1 || k == 2 || k == 3 || k == 4;
    }
  }

  /** The reset draft would be rejected, so the form cannot be resubmitted unchanged. */
  lemma EmptyDraftIncomplete()
    ensures !DraftComplete(EmptyEntryDraft)
  {
    assert DraftValues(EmptyEntryDraft)[0] == "";
  }

  /** `!newGroup.name || !newGroup.year` rejects; so both must be non-empty. */
  predicate GroupDraftValid(g: GroupDraft) {
    g.name != "" && g.year != ""
  }

  predicate StudentDraftValid(s: StudentDraft) {
    s.full_name != "" && s.email != "" && s.password != "" && s.registration_number != ""
  }

  // ---------------------------------------------------------------------------
  // List updates

  /** `students.map(s => s.id === edited.id ? edited : s)`. */
  function ReplaceById(students: seq<Student>, edited: Student): (r: seq<Student>)
    ensures |r| == |students|
    ensures forall i :: 0 <= i < |r| && students[i].id == edited.id ==> r[i] == edited
    ensures forall i :: 0 <= i < |r| && students[i].id != edited.id ==> r[i] == students[i]
  {
    if students == [] then []
    else [if students[0].id == edited.id then edited else students[0]] + ReplaceById(students[1..], edited)
  }

  /** Saving the same edit twice changes nothing the second time. */
  lemma {:induction false} ReplaceByIdIdempotent(students: seq<Student>, edited: Student)
    ensures ReplaceById(ReplaceById(students, edited), edited) == ReplaceById(students, edited)
  {
    if students != [] {
      ReplaceByIdIdempotent(students[1..], edited);
    }
  }

  function HasOtherId(id: string): Student -> bool {
    (s: Student) => s.id != id
  }

  /** `students.filter(s => s.id !== id)`. */
  function RemoveById(students: seq<Student>, id: string): (r: seq<Student>)
    ensures Selects(r, students, HasOtherId(id))
    ensures forall i :: 0 <= i < |r| ==> r[i].id != id
  {
    FilterSelects(HasOtherId(id), students);
    Filter(HasOtherId(id), students)
  }

  /** Deleting again after a delete changes nothing. */
  lemma RemoveByIdIdempotent(students: seq<Student>, id: string)
    ensures RemoveById(RemoveById(students, id), id) == RemoveById(students, id)
  {
    FilterIdempotent(HasOtherId(id), students);
  }

  /** A list without that id is left as it is. */
  lemma RemoveByIdAbsent(students: seq<Student>, id: string)
    requires forall i :: 0 <= i < |students| ==> students[i].id != id
    ensures RemoveById(students, id) == students
  {
    FilterKeepsAll(HasOtherId(id), students);
  }

  /** `{ ...response.data, member_count: '0' }`. */
  function WithNoMembers(g: StudentGroup): (r: StudentGroup)
    ensures r.id == g.id && r.name == g.name && r.year == g.year && r.member_count == "0"
  {
    g.(member_count := "0")
  }

  // ---------------------------------------------------------------------------
  // The component's state

  class DashboardState {
    var timetable: seq<Entry>
    var studentGroups: seq<StudentGroup>
    var students: seq<Student>

    var filterOptions: FilterOptions
    var isFilterOpen: bool
    var isViewOpen: bool
    var filteredData: seq<Entry>
    var viewTitle: string

    var isViewTimetableOpen: bool
    var selectedGroupTimetable: seq<Entry>
    var selectedGroupName: string

    var isAddGroupOpen: bool
    var newGroup: GroupDraft
    var isEditStudentOpen: bool
    var editingStudent: Option<Student>
    var isCreateTimetableOpen: bool
    var newTimetableEntry: EntryDraft
    var isAddStudentOpen: bool
    var newStudent: StudentDraft

    /** The messages shown with `alert`, oldest first. */
    var alerts: seq<string>
    /** The requests the handlers sent, oldest first. */
    var requests: seq<Request>

    /** The `useState` initial values. */
    constructor ()
      ensures timetable == [] && studentGroups == [] && students == []
      ensures filterOptions == InitialFilter && !isFilterOpen && !isViewOpen
      ensures filteredData == [] && viewTitle == ""
      ensures !isViewTimetableOpen && selectedGroupTimetable == [] && selectedGroupName == ""
      ensures !isAddGroupOpen && newGroup == EmptyGroupDraft
      ensures !isEditStudentOpen && editingStudent == None
      ensures !isCreateTimetableOpen && newTimetableEntry == EmptyEntryDraft
      ensures !isAddStudentOpen && newStudent == EmptyStudentDraft
      ensures alerts == [] && requests == []
    {
      timetable, studentGroups, students := [], [], [];
      filterOptions, isFilterOpen, isViewOpen := InitialFilter, false, false;
      filteredData, viewTitle := [], "";
      isViewTimetableOpen, selectedGroupTimetable, selectedGroupName := false, [], "";
      isAddGroupOpen, newGroup := false, EmptyGroupDraft;
      isEditStudentOpen, editingStudent := false, None;
      isCreateTimetableOpen, newTimetableEntry := false, EmptyEntryDraft;
      isAddStudentOpen, newStudent := false, EmptyStudentDraft;
      alerts := [];
      requests := [];
    }

    /**
     * `handleApplyFilter`: narrow by type, then let the week timeframe override the data
     * and the title; close the filter dialog and open the view.
     */
    method ApplyFilter()
      modifies this`filteredData, this`viewTitle, this`isFilterOpen, this`isViewOpen
      ensures View(filteredData, viewTitle) == Timetable.ApplyFilter(timetable, studentGroups, filterOptions)
      ensures !isFilterOpen && isViewOpen
    {
      var data := timetable;
      var title := "";
      if filterOptions.filterType == "day" {
        data := Filter(OnDay(filterOptions.value), timetable);
        title := "Timetable for " + filterOptions.value;
      } else if filterOptions.filterType == "group" {
        data := Filter(InGroup(filterOptions.value), timetable);
        var groupName := GroupName(studentGroups, filterOptions.value);
        title := "Timetable for " + groupName;
      }
      if filterOptions.timeframe == "week" {
        data := timetable;
        if filterOptions.filterType == "group" {
          var groupName := GroupName(studentGroups, filterOptions.value);
          title := "Full Week Timetable for " + groupName;
        } else {
          title := "Full Week Timetable";
        }
      }
      filteredData := data;
      viewTitle := title;
      isFilterOpen := false;
      isViewOpen := true;
    }

    /** `handleViewTimetableClick`: open the dialog with one group's schedule. */
    method ViewTimetableClick(groupId: string, groupName: string)
      modifies this`selectedGroupTimetable, this`selectedGroupName, this`isViewTimetableOpen
      ensures selectedGroupTimetable == GroupSchedule(timetable, groupId)
      ensures selectedGroupName == groupName && isViewTimetableOpen
    {
      selectedGroupTimetable := Filter(InGroup(groupId), timetable);
      selectedGroupName := groupName;
      isViewTimetableOpen := true;
    }

    /**
     * `handleCreateGroup`; `created` is the group `POST /student-groups` returned, or
     * `None` when the request failed.
     */
    method CreateGroup(created: Option<StudentGroup>)
      modifies this`studentGroups, this`isAddGroupOpen, this`newGroup, this`alerts, this`requests
      ensures !GroupDraftValid(old(newGroup)) ==> requests == old(requests)
      ensures GroupDraftValid(old(newGroup)) ==> requests == old(requests) + [GroupRequest(old(newGroup))]
      ensures !GroupDraftValid(old(newGroup)) ==>
                alerts == old(alerts) + [GroupMissingFields]
                && studentGroups == old(studentGroups) && isAddGroupOpen == old(isAddGroupOpen)
                && newGroup == old(newGroup)
      ensures GroupDraftValid(old(newGroup)) && created.Some? ==>
                studentGroups == old(studentGroups) + [WithNoMembers(created.value)]
                && !isAddGroupOpen && newGroup == EmptyGroupDraft && alerts == old(alerts)
      ensures GroupDraftValid(old(newGroup)) && created.None? ==>
                alerts == old(alerts) + [GroupCreateFailed]
                && studentGroups == old(studentGroups) && isAddGroupOpen == old(isAddGroupOpen)
                && newGroup == old(newGroup)
    {
      if newGroup.name == "" || newGroup.year == "" {
        alerts := alerts + [GroupMissingFields];
        return;
      }
      requests := requests + [PostGroup(newGroup.name, ParseInt(newGroup.year))];
      match created {
        case Some(g) =>
          studentGroups := studentGroups + [g.(member_count := "0")];
          isAddGroupOpen := false;
          newGroup := EmptyGroupDraft;
        case None =>
          alerts := alerts + [GroupCreateFailed];
      }
    }

    /** `handleEditClick`: start editing a copy of the student. */
    method EditClick(student: Student)
      modifies this`editingStudent, this`isEditStudentOpen
      ensures editingStudent == Some(student) && isEditStudentOpen
    {
      editingStudent := Some(student);
      isEditStudentOpen := true;
    }

    /** `handleUpdateStudent`; `saved` says whether `PUT /students/:id` succeeded. */
    method UpdateStudent(saved: bool)
      modifies this`students, this`isEditStudentOpen, this`editingStudent, this`alerts, this`requests
      ensures old(editingStudent).None? ==> requests == old(requests)
      ensures old(editingStudent).Some? ==> requests == old(requests) + [UpdateRequest(old(editingStudent).value)]
      ensures old(editingStudent).None? ==>
                students == old(students) && isEditStudentOpen == old(isEditStudentOpen)
                && editingStudent == old(editingStudent) && alerts == old(alerts)
      ensures old(editingStudent).Some? && saved ==>
                students == ReplaceById(old(students), old(editingStudent).value)
                && !isEditStudentOpen && editingStudent == None && alerts == old(alerts)
      ensures old(editingStudent).Some? && !saved ==>
                alerts == old(alerts) + [StudentUpdateFailed]
                && students == old(students) && isEditStudentOpen == old(isEditStudentOpen)
                && editingStudent == old(editingStudent)
    {
      if editingStudent.None? {
        return;
      }
      var s := editingStudent.value;
      requests := requests + [PutStudent(s.id, s.full_name, s.email, s.registration_number)];
      if saved {
        students := ReplaceById(students, editingStudent.value);
        isEditStudentOpen := false;
        editingStudent := None;
      } else {
        alerts := alerts + [StudentUpdateFailed];
      }
    }

    /**
     * `handleDeleteStudent`; `confirmed` is the answer to `window.confirm`, `deleted` whether
     * `DELETE /students/:id` succeeded.
     */
    method DeleteStudent(id: string, confirmed: bool, deleted: bool)
      modifies this`students, this`alerts, this`requests
      ensures requests == old(requests) + (if confirmed then [DeleteStudentRequest(id)] else [])
      ensures confirmed && deleted ==> students == RemoveById(old(students), id) && alerts == old(alerts)
      ensures confirmed && !deleted ==> students == old(students) && alerts == old(alerts) + [StudentDeleteFailed]
      ensures !confirmed ==> students == old(students) && alerts == old(alerts)
    {
      if confirmed {
        requests := requests + [DeleteStudentRequest(id)];
        if deleted {
          students := Filter(HasOtherId(id), students);
        } else {
          alerts := alerts + [StudentDeleteFailed];
        }
      }
    }

    /**
     * `handleCreateTimetable`: post the draft, then refetch the whole timetable; `outcome` says
     * which request threw (the server rejects a clash) or what the refetch returned.
     */
    method CreateTimetableEntry(outcome: CreateOutcome)
      modifies this`timetable, this`isCreateTimetableOpen, this`newTimetableEntry, this`alerts, this`requests
      ensures !DraftComplete(old(newTimetableEntry)) ==>
                alerts == old(alerts) + [EntryMissingFields] && timetable == old(timetable)
                && isCreateTimetableOpen == old(isCreateTimetableOpen)
                && newTimetableEntry == old(newTimetableEntry) && requests == old(requests)
      ensures DraftComplete(old(newTimetableEntry)) ==>
                requests == old(requests) + [PostEntry(old(newTimetableEntry))]
                            + (if outcome.PostFailed? then [] else [GetTimetable])
      ensures DraftComplete(old(newTimetableEntry)) && outcome.Refetched? ==>
                timetable == outcome.entries && !isCreateTimetableOpen
                && newTimetableEntry == EmptyEntryDraft && alerts == old(alerts)
      ensures DraftComplete(old(newTimetableEntry)) && !outcome.Refetched? ==>
                alerts == old(alerts) + [EntryCreateFailed] && timetable == old(timetable)
                && isCreateTimetableOpen == old(isCreateTimetableOpen)
                && newTimetableEntry == old(newTimetableEntry)
    {
      if !DraftComplete(newTimetableEntry) {
        alerts := alerts + [EntryMissingFields];
        return;
      }
      requests := requests + [PostEntry(newTimetableEntry)];
      if outcome.PostFailed? {
        alerts := alerts + [EntryCreateFailed];
        return;
      }
      requests := requests + [GetTimetable];
      match outcome {
        case Refetched(fetched) =>
          timetable := fetched;
          isCreateTimetableOpen := false;
          newTimetableEntry := EmptyEntryDraft;
        case RefetchFailed =>
          alerts := alerts + [EntryCreateFailed];
      }
    }

    /** `handleAddStudent`; `outcome` is what `POST /students` gave back. */
    method AddStudent(outcome: AddOutcome)
      modifies this`students, this`newStudent, this`isAddStudentOpen, this`alerts, this`requests
      ensures !StudentDraftValid(old(newStudent)) ==> requests == old(requests)
      ensures StudentDraftValid(old(newStudent)) ==> requests == old(requests) + [PostStudent(old(newStudent))]
      ensures !StudentDraftValid(old(newStudent)) ==>
                alerts == old(alerts) + [StudentMissingFields] && students == old(students)
                && newStudent == old(newStudent) && isAddStudentOpen == old(isAddStudentOpen)
      ensures StudentDraftValid(old(newStudent)) && outcome.Created? && outcome.student.Some? ==>
                students == old(students) + [outcome.student.value] && newStudent == EmptyStudentDraft
                && !isAddStudentOpen && alerts == old(alerts)
      ensures StudentDraftValid(old(newStudent)) && outcome == Created(None) ==>
                alerts == old(alerts) + [StudentListFailed] && students == old(students)
                && newStudent == old(newStudent) && isAddStudentOpen == old(isAddStudentOpen)
      ensures StudentDraftValid(old(newStudent)) && outcome == Rejected ==>
                alerts == old(alerts) + [StudentCreateFailed] && students == old(students)
                && newStudent == old(newStudent) && isAddStudentOpen == old(isAddStudentOpen)
    {
      if newStudent.full_name == "" || newStudent.email == "" || newStudent.password == ""
         || newStudent.registration_number == "" {
        alerts := alerts + [StudentMissingFields];
        return;
      }
      requests := requests + [PostStudent(newStudent)];
      match outcome {
        case Created(Some(s)) =>
          students := students + [s];
          newStudent := EmptyStudentDraft;
          isAddStudentOpen := false;
        case Created(None) =>
          alerts := alerts + [StudentListFailed];
        case Rejected =>
          alerts := alerts + [StudentCreateFailed];
      }
    }
  }
}
