/** The health page of src/_root/main/HealthModule.tsx: the exam list with
    its add, delete and edit handlers, the HEALTH reminders fetched from the
    task list, the "new reminder" form, and the exam date display. */
module Health {
  import opened Wrappers
  import opened JsText
  import Lists

  /** A stored exam. */
  datatype Exam = Exam(id: string, title: string, date: string, category: string, note: string)

  /** A `PUT` of an exam: its path and its JSON body (absent while no exam
      was picked for editing). */
  datatype ExamUpdate = ExamUpdate(path: string, body: Option<Exam>)

  const HealthPath: string := "/private/health/"

  /** `/private/health/${id}`: the id follows the fixed prefix. */
  function ExamPath(id: string): (p: string)
    ensures |p| == |HealthPath| + |id| && p[..|HealthPath|] == HealthPath && p[|HealthPath|..] == id
  {
    HealthPath + id
  }

  /** Distinct exams are sent to distinct paths. */
  lemma ExamPathInjective(a: string, b: string)
    requires ExamPath(a) == ExamPath(b)
    ensures a == b
  {
    assert a == ExamPath(a)[|HealthPath|..];
  }

  /** The "new exam" form (`newExam`), which is also the body of the POST. */
  datatype ExamForm = ExamForm(title: string, date: string, category: string, note: string)

  /** A task record as this page reads it. */
  datatype HealthTask = HealthTask(id: string, name: string, kind: string, description: string, date: string)

  /** The body of the tasks GET reply: an array of records, or anything else. */
  datatype TaskReply = Records(items: seq<HealthTask>) | NotAnArray

  /** The "new reminder" form (`newTask`). */
  datatype TaskForm = TaskForm(name: string, kind: string, description: string, date: string)

  /** The body of `POST /private/tasks/` sent by `handleCreateReminder`. */
  datatype ReminderRequest = ReminderRequest(name: string, kind: string, description: string,
                                             isPriority: bool, date: string, reminderTime: string)

  const EmptyExamForm := ExamForm("", "", "", "")
  const EmptyTaskForm := TaskForm("", "HEALTH", "", "")

  /** The reminders the page keeps from a reply: the HEALTH ones, in server
      order. */
  function HealthTasks(reply: TaskReply): (r: seq<HealthTask>)
    ensures reply.NotAnArray? ==> r == []
    ensures reply.Records? ==> forall t :: t in r <==> t in reply.items && t.kind == "HEALTH"
  {
    match reply
    case Records(items) => Lists.Filter(items, (t: HealthTask) => t.kind == "HEALTH")
    case NotAnArray => []
  }

  /** The server order survives the HEALTH filter. */
  lemma HealthTasksKeepOrder(a: seq<HealthTask>, b: seq<HealthTask>)
    ensures HealthTasks(Records(a + b)) == HealthTasks(Records(a)) + HealthTasks(Records(b))
  {
    Lists.FilterAppend(a, b, (t: HealthTask) => t.kind == "HEALTH");
  }

  /** `exams.filter(x => x.id !== id)`. */
  function WithoutExam(exams: seq<Exam>, id: string): (r: seq<Exam>)
    ensures forall e :: e in r <==> e in exams && e.id != id
  {
    Lists.Filter(exams, (e: Exam) => e.id != id)
  }

  /** `task.filter(x => x.id !== id)`. */
  function WithoutTask(tasks: seq<HealthTask>, id: string): (r: seq<HealthTask>)
    ensures forall t :: t in r <==> t in tasks && t.id != id
  {
    Lists.Filter(tasks, (t: HealthTask) => t.id != id)
  }

  /** The exam added to the list: the form's fields under a fresh id. */
  function ExamOf(form: ExamForm, id: string): Exam {
    Exam(id, form.title, form.date, form.category, form.note)
  }

  /** What `handleCreateReminder` posts for the form, or `None` when the name
      or the date is empty and it returns before the request. */
  function ReminderRequestOf(form: TaskForm): (r: Option<ReminderRequest>)
    ensures r.None? <==> form.name == "" || form.date == ""
    ensures r.Some? ==> r.value.name == form.name && r.value.kind == form.kind && r.value.description == ""
    ensures r.Some? ==> !r.value.isPriority && r.value.date == form.date && r.value.reminderTime == form.date
  {
    if form.name == "" || form.date == "" then None
    else Some(ReminderRequest(form.name, form.kind, "", false, form.date, form.date))
  }

  /** The date under an exam's title: characters 8-10, 5-7 and 0-4 of the
      stored text, joined by slashes. */
  function DisplayDate(date: string): (r: string)
    ensures |r| <= 2 + 3 * |date|
  {
    Substring(date, 8, 10) + "/" + Substring(date, 5, 7) + "/" + Substring(date, 0, 4)
  }

  /** A date stored as "YYYY-MM-DD" is shown as "DD/MM/YYYY". */
  lemma DisplayDateOfDay(year: string, month: string, day: string)
    requires |year| == 4 && |month| == 2 && |day| == 2
    ensures DisplayDate(year + "-" + month + "-" + day) == day + "/" + month + "/" + year
  {
    var date := year + "-" + month + "-" + day;
    assert date[0..4] == year;
    assert date[5..7] == month;
    assert date[8..10] == day;
  }

  /** The date the input of type "date" leaves empty shows as "//". */
  lemma EmptyDateDisplay()
    ensures DisplayDate("") == "//"
  {
  }

  class HealthPage {
    var isModalOpen: bool
    var isEditModalOpen: bool
    var exams: seq<Exam>
    var editExam: Option<Exam>
    var newTask: TaskForm
    var tasks: seq<HealthTask>
    var loading: bool
    var newExam: ExamForm

    constructor ()
      ensures !isModalOpen && !isEditModalOpen && exams == [] && editExam == None
      ensures newTask == EmptyTaskForm && tasks == [] && !loading && newExam == EmptyExamForm
    {
      isModalOpen := false;
      isEditModalOpen := false;
      exams := [];
      editExam := None;
      newTask := EmptyTaskForm;
      tasks := [];
      loading := false;
      newExam := EmptyExamForm;
    }

    /** The button that creates a reminder is enabled only while no request
        is in flight. */
    function CanCreateReminder(): bool
      reads this
    {
      !loading
    }

    /** `fetchExams`: the reply replaces the list; a failed request keeps it. */
    method FetchExams(reply: Option<seq<Exam>>)
      modifies this
      ensures reply.Some? ==> exams == reply.value
      ensures reply.None? ==> exams == old(exams)
      ensures tasks == old(tasks) && newTask == old(newTask) && newExam == old(newExam) && loading == old(loading)
      ensures isModalOpen == old(isModalOpen) && isEditModalOpen == old(isEditModalOpen) && editExam == old(editExam)
    {
      if reply.Some? {
        exams := reply.value;
      }
    }

    /** `fetchTasks`: only the HEALTH records are kept; a failed request
        keeps the list. */
    method FetchTasks(reply: Option<TaskReply>)
      modifies this
      ensures reply.Some? ==> tasks == HealthTasks(reply.value)
      ensures reply.None? ==> tasks == old(tasks)
      ensures exams == old(exams) && newTask == old(newTask) && newExam == old(newExam) && loading == old(loading)
      ensures isModalOpen == old(isModalOpen) && isEditModalOpen == old(isEditModalOpen) && editExam == old(editExam)
    {
      if reply.Some? {
        tasks := HealthTasks(reply.value);
      }
    }

    /** `handleSaveExam`: the form is posted, and whatever the server answers
        the exam goes in front of the list under `freshId` (the random id),
        the modal closes and the form is emptied. */
    method SaveExam(freshId: string) returns (posted: ExamForm)
      modifies this
      ensures posted == old(newExam)
      ensures exams == [ExamOf(old(newExam), freshId)] + old(exams)
      ensures !isModalOpen && newExam == EmptyExamForm
      ensures tasks == old(tasks) && newTask == old(newTask) && loading == old(loading)
      ensures isEditModalOpen == old(isEditModalOpen) && editExam == old(editExam)
    {
      posted := newExam;
      exams := [ExamOf(newExam, freshId)] + exams;
      isModalOpen := false;
      newExam := EmptyExamForm;
    }

    /** `handleDeleteExam`: the exam leaves the list whatever the server
        answers. */
    method DeleteExam(id: string)
      modifies this
      ensures exams == WithoutExam(old(exams), id)
      ensures tasks == old(tasks) && newTask == old(newTask) && newExam == old(newExam) && loading == old(loading)
      ensures isModalOpen == old(isModalOpen) && isEditModalOpen == old(isEditModalOpen) && editExam == old(editExam)
    {
      exams := WithoutExam(exams, id);
    }

    /** `handleCreateReminder`. The loading flag goes up first. With an empty
        name or date nothing is posted and the flag stays up, so the button
        stays disabled; otherwise the request is posted and, whatever the
        server answers, the form is reset and the flag comes down. The list
        of reminders is not touched. */
    method CreateReminder() returns (request: Option<ReminderRequest>)
      modifies this
      ensures request == ReminderRequestOf(old(newTask))
      ensures request.None? ==> loading && !CanCreateReminder() && newTask == old(newTask)
      ensures request.Some? ==> !loading && newTask == EmptyTaskForm
      ensures exams == old(exams) && tasks == old(tasks) && newExam == old(newExam)
      ensures isModalOpen == old(isModalOpen) && isEditModalOpen == old(isEditModalOpen) && editExam == old(editExam)
    {
      loading := true;
      request := ReminderRequestOf(newTask);
      if request.None? {
        return;
      }
      newTask := EmptyTaskForm;
      loading := false;
    }

    /** `handleDeleteTask`: the reminder leaves the list whatever the server
        answers. */
    method DeleteTask(id: string)
      modifies this
      ensures tasks == WithoutTask(old(tasks), id)
      ensures exams == old(exams) && newTask == old(newTask) && newExam == old(newExam) && loading == old(loading)
      ensures isModalOpen == old(isModalOpen) && isEditModalOpen == old(isEditModalOpen) && editExam == old(editExam)
    {
      tasks := WithoutTask(tasks, id);
    }

    /** `onEdit`: the exam is copied into the edit modal, which opens. */
    method OnEdit(exam: Exam)
      modifies this
      ensures isEditModalOpen && editExam == Some(exam)
      ensures exams == old(exams) && tasks == old(tasks) && newTask == old(newTask)
      ensures newExam == old(newExam) && loading == old(loading) && isModalOpen == old(isModalOpen)
    {
      isEditModalOpen := true;
      editExam := Some(exam);
    }

    /** `handleEditExam(id)`: the exam being edited is sent by PUT to the
        exam's path; the handler only logs a failure. */
    method EditExam(id: string) returns (request: ExamUpdate)
      ensures request.path == ExamPath(id) && request.body == editExam
      ensures request.path[|HealthPath|..] == id
    {
      request := ExamUpdate(ExamPath(id), editExam);
    }

    /** Submitting the edit form, which is shown only while the edit modal
        is open with an exam in it: the exam goes to its own id's path. */
    method SubmitEditForm() returns (request: ExamUpdate)
      requires isEditModalOpen && editExam.Some?
      ensures request.body == editExam
      ensures request.path == ExamPath(editExam.value.id)
    {
      request := EditExam(editExam.value.id);
    }
  }
}
