/** The work-task list of src/_root/main/Tasks.tsx: the tasks fetched from
    the server, the status toggle, the local delete, the three-way status
    filter and the "new task" form with its request. */
module Tasks {
  import opened Wrappers
  import opened JsDate
  import Lists
  import Reminder

  /** A task record as the server returns it. The timestamps, the owner and
      the reminder list are carried by the server but never read here. */
  datatype Task = Task(id: string, kind: string, status: bool, name: string,
                       description: Option<string>, date: Option<string>, isPriority: bool)

  /** The body of the GET reply: an array of records, or anything else. */
  datatype Reply = Records(items: seq<Task>) | NotAnArray

  /** The body of `POST private/tasks`. `date` is the text handed to
      `new Date(...)` (local midnight of the due day); an absent field is
      `undefined`, which the request leaves out. */
  datatype NewTask = NewTask(name: string, kind: string, description: Option<string>,
                             date: Option<string>, isPriority: bool, reminderTime: Option<string>)

  /** The tasks the page keeps from a reply: the WORK ones, in server order. */
  function WorkTasks(reply: Reply): (r: seq<Task>)
    ensures reply.NotAnArray? ==> r == []
    ensures reply.Records? ==> forall t :: t in r <==> t in reply.items && t.kind == "WORK"
  {
    match reply
    case Records(items) => Lists.Filter(items, (t: Task) => t.kind == "WORK")
    case NotAnArray => []
  }

  /** Keeping the WORK tasks of two replies one after the other is keeping
      them of the joined reply: the server order survives. */
  lemma WorkTasksKeepOrder(a: seq<Task>, b: seq<Task>)
    ensures WorkTasks(Records(a + b)) == WorkTasks(Records(a)) + WorkTasks(Records(b))
  {
    Lists.FilterAppend(a, b, (t: Task) => t.kind == "WORK");
  }

  /** A reply holding only WORK tasks is kept whole. */
  lemma AllWorkKept(items: seq<Task>)
    requires forall t :: t in items ==> t.kind == "WORK"
    ensures WorkTasks(Records(items)) == items
  {
    Lists.FilterKeepsAll(items, (t: Task) => t.kind == "WORK");
  }

  /** `toggleTaskStatus(id)`: the tasks with that id change status, nothing
      else changes. */
  function ToggleStatus(tasks: seq<Task>, id: string): (r: seq<Task>)
    ensures |r| == |tasks|
    ensures forall i :: 0 <= i < |tasks| ==>
      r[i].(status := tasks[i].status) == tasks[i] &&
      (r[i].status != tasks[i].status <==> tasks[i].id == id)
  {
    Lists.UpdateWhere(tasks, (t: Task) => t.id == id, (t: Task) => t.(status := if t.status == true then false else true))
  }

  /** Toggling the same id twice gives the list back. */
  lemma ToggleTwice(tasks: seq<Task>, id: string)
    ensures ToggleStatus(ToggleStatus(tasks, id), id) == tasks
  {
    var once := ToggleStatus(tasks, id);
    var twice := ToggleStatus(once, id);
    assert forall i :: 0 <= i < |tasks| ==> twice[i] == tasks[i] by {
      forall i | 0 <= i < |tasks|
        ensures twice[i] == tasks[i]
      {
        assert once[i].id == tasks[i].id;
      }
    }
  }

  /** `tasks.filter(t => t.id !== id)`. */
  function WithoutId(tasks: seq<Task>, id: string): (r: seq<Task>)
    ensures forall t :: t in r <==> t in tasks && t.id != id
  {
    Lists.Filter(tasks, (t: Task) => t.id != id)
  }

  /** `filteredTasks`: no filter shows all (its test passes every task),
      `true` the completed ones and `false` the pending ones. */
  function Visible(tasks: seq<Task>, filter: Option<bool>): (r: seq<Task>)
    ensures filter.None? ==> r == tasks
    ensures filter.Some? ==> forall t :: t in r <==> t in tasks && t.status == filter.value
  {
    match filter
    case None => tasks
    case Some(wanted) => Lists.Filter(tasks, (t: Task) => t.status == wanted)
  }

  /** The completed view and the pending view split the list: each task is in
      exactly one of them. */
  lemma DoneAndPendingPartition(tasks: seq<Task>)
    ensures multiset(Visible(tasks, Some(true))) + multiset(Visible(tasks, Some(false))) == multiset(tasks)
    ensures |Visible(tasks, Some(true))| + |Visible(tasks, Some(false))| == |tasks|
  {
    Lists.FilterPartition(tasks, (t: Task) => t.status == true, (t: Task) => t.status == false);
  }

  /** What `handleAddTask` sends for the form's current values, or `None` when
      it sends nothing: an empty title returns at once, and a reminder time
      whose `toISOString` throws ends the handler before the request.
      `parsedDue` is `new Date(dueDate)`. */
  function AddTaskRequest(title: string, description: string, dueDate: string, reminderType: string,
                          parsedDue: Date): Option<NewTask>
    requires parsedDue.At? ==> parsedDue.dt.Valid()
  {
    if title == "" then None
    else
      match Reminder.CalculateReminderTime(dueDate, reminderType, parsedDue)
      case RangeError => None
      case Undefined =>
        Some(NewTask(title, "WORK", if description == "" then None else Some(description),
                     if dueDate == "" then None else Some(dueDate + "T00:00:00"), false, None))
      case Text(iso) =>
        Some(NewTask(title, "WORK", if description == "" then None else Some(description),
                     if dueDate == "" then None else Some(dueDate + "T00:00:00"), false, Some(iso)))
  }

  /** A request goes out iff the title is filled and the reminder time can be
      written; it is a non-priority WORK task named by the title, an empty
      description or due date is left out, and the reminder time is the
      helper's text. */
  lemma AddTaskRequestFields(title: string, description: string, dueDate: string, reminderType: string,
                             parsedDue: Date)
    requires parsedDue.At? ==> parsedDue.dt.Valid()
    ensures var r := AddTaskRequest(title, description, dueDate, reminderType, parsedDue);
      var reminder := Reminder.CalculateReminderTime(dueDate, reminderType, parsedDue);
      (r.None? <==> title == "" || reminder.RangeError?) &&
      (r.Some? ==>
        r.value.name == title && r.value.kind == "WORK" && !r.value.isPriority &&
        (r.value.description.None? <==> description == "") &&
        (r.value.description.Some? ==> r.value.description.value == description) &&
        (r.value.date.None? <==> dueDate == "") &&
        (r.value.date.Some? ==> r.value.date.value == dueDate + "T00:00:00") &&
        (r.value.reminderTime.Some? <==> reminder.Text?) &&
        (r.value.reminderTime.Some? ==> r.value.reminderTime.value == reminder.iso))
  {
  }

  /** The form starts with reminder type "WORK" and is reset to "daily";
      neither is a reminder key, so a filled title always sends a task
      without a reminder time until an option is picked. */
  lemma DefaultReminderTypesSendNoReminder(title: string, description: string, dueDate: string,
                                           reminderType: string, parsedDue: Date)
    requires parsedDue.At? ==> parsedDue.dt.Valid()
    requires reminderType == "WORK" || reminderType == "daily"
    requires title != ""
    ensures var r := AddTaskRequest(title, description, dueDate, reminderType, parsedDue);
      r.Some? && r.value.reminderTime == None
  {
    Reminder.FormDefaultsGiveNoReminder(dueDate, parsedDue);
  }

  class TaskManager {
    var tasks: seq<Task>
    var loading: bool
    var showForm: bool
    var filter: Option<bool>
    var title: string
    var description: string
    var dueDate: string
    var reminderType: string

    constructor ()
      ensures tasks == [] && !loading && !showForm && filter == None
      ensures title == "" && description == "" && dueDate == "" && reminderType == "WORK"
    {
      tasks := [];
      loading := false;
      showForm := false;
      filter := None;
      title := "";
      description := "";
      dueDate := "";
      reminderType := "WORK";
    }

    /** The list the page shows. */
    function Shown(): seq<Task>
      reads this
    {
      Visible(tasks, filter)
    }

    /** `fetchTasks`: `reply` is the GET body, `None` when the request fails;
        a failure keeps the list. The loading flag is down afterwards. */
    method FetchTasks(reply: Option<Reply>)
      modifies this
      ensures reply.Some? ==> tasks == WorkTasks(reply.value)
      ensures reply.None? ==> tasks == old(tasks)
      ensures !loading
      ensures showForm == old(showForm) && filter == old(filter)
      ensures title == old(title) && description == old(description)
      ensures dueDate == old(dueDate) && reminderType == old(reminderType)
    {
      loading := true;
      if reply.Some? {
        tasks := WorkTasks(reply.value);
      }
      loading := false;
    }

    /** `resetForm`. */
    method ResetForm()
      modifies this
      ensures title == "" && description == "" && dueDate == "" && reminderType == "daily" && !showForm
      ensures tasks == old(tasks) && loading == old(loading) && filter == old(filter)
    {
      title := "";
      description := "";
      dueDate := "";
      reminderType := "daily";
      showForm := false;
    }

    /** `handleAddTask`: `request` is what is posted (`None`: nothing is),
        `reply` the created task the server returns, `None` when the request
        fails. Only a created task changes the page: it goes in front and the
        form is reset. */
    method AddTask(parsedDue: Date, reply: Option<Task>) returns (request: Option<NewTask>)
      requires parsedDue.At? ==> parsedDue.dt.Valid()
      modifies this
      ensures request == AddTaskRequest(old(title), old(description), old(dueDate), old(reminderType), parsedDue)
      ensures request.Some? && reply.Some? ==>
        tasks == [reply.value] + old(tasks) &&
        title == "" && description == "" && dueDate == "" && reminderType == "daily" && !showForm
      ensures request.None? || reply.None? ==>
        tasks == old(tasks) && title == old(title) && description == old(description) &&
        dueDate == old(dueDate) && reminderType == old(reminderType) && showForm == old(showForm)
      ensures loading == old(loading) && filter == old(filter)
    {
      request := AddTaskRequest(title, description, dueDate, reminderType, parsedDue);
      if request.None? {
        return;
      }
      if reply.Some? {
        tasks := [reply.value] + tasks;
        ResetForm();
      }
    }

    /** `toggleTaskStatus`: only the list changes. */
    method ToggleTaskStatus(id: string)
      modifies this
      ensures tasks == ToggleStatus(old(tasks), id)
      ensures loading == old(loading) && showForm == old(showForm) && filter == old(filter)
      ensures title == old(title) && description == old(description)
      ensures dueDate == old(dueDate) && reminderType == old(reminderType)
    {
      tasks := ToggleStatus(tasks, id);
    }

    /** `deleteTask`: the task leaves the list before the request is sent,
        whatever the server answers. */
    method DeleteTask(id: string)
      modifies this
      ensures tasks == WithoutId(old(tasks), id)
      ensures loading == old(loading) && showForm == old(showForm) && filter == old(filter)
      ensures title == old(title) && description == old(description)
      ensures dueDate == old(dueDate) && reminderType == old(reminderType)
    {
      tasks := WithoutId(tasks, id);
    }

    /** The three filter buttons. */
    method SetFilter(f: Option<bool>)
      modifies this
      ensures filter == f
      ensures tasks == old(tasks) && loading == old(loading) && showForm == old(showForm)
      ensures title == old(title) && description == old(description)
      ensures dueDate == old(dueDate) && reminderType == old(reminderType)
    {
      filter := f;
    }
  }
}
