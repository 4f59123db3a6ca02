/** The shared record types: users, subjects and tasks as the store keeps them, the field
    sets a caller may supply when inserting or updating a task, and the derived records the
    engine computes (suggestion, time block, daily schedule, subject share, weekly entry). */
module Schema {
  import opened Wrappers
  import opened Clock

  datatype Priority = Low | Medium | High

  datatype TaskType = Assignment | Project | Exam | Study

  /** The database enum value of a priority. */
  function PriorityName(p: Priority): string {
    match p
    case Low => "low"
    case Medium => "medium"
    case High => "high"
  }

  /** The priority an enum string stands for, if any. */
  function PriorityFromName(s: string): Option<Priority> {
    if s == "low" then Some(Low)
    else if s == "medium" then Some(Medium)
    else if s == "high" then Some(High)
    else None
  }

  /** The priority enum is exactly {"low", "medium", "high"}: each name stands for one
      priority and every priority has one name. */
  lemma PriorityNamesExact(s: string, p: Priority)
    ensures PriorityFromName(s) == Some(p) <==> s == PriorityName(p)
    ensures PriorityFromName(s).None? <==> s !in {"low", "medium", "high"}
  {
  }

  function TaskTypeName(t: TaskType): string {
    match t
    case Assignment => "assignment"
    case Project => "project"
    case Exam => "exam"
    case Study => "study"
  }

  function TaskTypeFromName(s: string): Option<TaskType> {
    if s == "assignment" then Some(Assignment)
    else if s == "project" then Some(Project)
    else if s == "exam" then Some(Exam)
    else if s == "study" then Some(Study)
    else None
  }

  /** The task type enum is exactly {"assignment", "project", "exam", "study"}. */
  lemma TaskTypeNamesExact(s: string, t: TaskType)
    ensures TaskTypeFromName(s) == Some(t) <==> s == TaskTypeName(t)
    ensures TaskTypeFromName(s).None? <==> s !in {"assignment", "project", "exam", "study"}
  {
  }

  datatype User = User(id: int, username: string, password: string, fullName: string,
                       fieldOfStudy: Option<string>)

  datatype InsertUser = InsertUser(username: string, password: string, fullName: string,
                                   fieldOfStudy: Option<string>)

  datatype Subject = Subject(id: int, name: string, userId: int, color: string)

  datatype InsertSubject = InsertSubject(name: string, userId: int, color: string)

  /** A stored task. `subjectId` is nullable; `completed` defaults to false and `createdAt`
      to the moment of insertion. */
  datatype Task = Task(id: int, title: string, description: Option<string>, userId: int,
                       subjectId: Option<int>, taskType: TaskType, deadline: Time,
                       timeEstimate: int, priority: Priority, completed: bool,
                       createdAt: Time)

  /** The fields a caller supplies to create a task: no id, no completion flag and no
      creation time. */
  datatype InsertTask = InsertTask(title: string, description: Option<string>, userId: int,
                                   subjectId: Option<int>, taskType: TaskType,
                                   deadline: Time, timeEstimate: int, priority: Priority)

  /** The fields a partial update may supply (`None` = not supplied). There is no id, owner
      or creation time among them; the nullable columns take an `Option` value when
      supplied. */
  datatype UpdateTask = UpdateTask(title: Option<string>, description: Option<Option<string>>,
                                   subjectId: Option<Option<int>>, taskType: Option<TaskType>,
                                   deadline: Option<Time>, timeEstimate: Option<int>,
                                   priority: Option<Priority>, completed: Option<bool>)

  datatype TaskStatus = Completed | InProgress | NotStarted | Overdue

  /** The string a status is written as. */
  function StatusName(s: TaskStatus): string {
    match s
    case Completed => "completed"
    case InProgress => "in_progress"
    case NotStarted => "not_started"
    case Overdue => "overdue"
  }

  function StatusFromName(s: string): Option<TaskStatus> {
    if s == "completed" then Some(Completed)
    else if s == "in_progress" then Some(InProgress)
    else if s == "not_started" then Some(NotStarted)
    else if s == "overdue" then Some(Overdue)
    else None
  }

  /** The status type is exactly {"completed", "in_progress", "not_started", "overdue"}. */
  lemma StatusNamesExact(s: string, st: TaskStatus)
    ensures StatusFromName(s) == Some(st) <==> s == StatusName(st)
    ensures StatusFromName(s).None? <==> s !in {"completed", "in_progress", "not_started", "overdue"}
  {
  }

  datatype TaskSuggestion = TaskSuggestion(taskId: int, title: string, reason: string,
                                           subjectName: string, timeEstimate: int,
                                           deadline: Time)

  datatype TimeBlock = TimeBlock(taskId: int, title: string, subjectName: string,
                                 startTime: string, endTime: string, isCurrent: bool)

  datatype DailySchedule = DailySchedule(date: string, totalAllocated: int,
                                         timeBlocks: seq<TimeBlock>)

  datatype SubjectDistribution = SubjectDistribution(subjectId: int, name: string,
                                                     color: string, percentage: int)

  datatype WeeklyProgress = WeeklyProgress(day: string, tasksCompleted: int, tasksTotal: int,
                                           studyTime: int)

  /** The JavaScript truthiness of `task.subjectId`: present and not 0. */
  predicate HasSubject(t: Task) {
    t.subjectId.Some? && t.subjectId.value != 0
  }

  function Estimate(t: Task): int {
    t.timeEstimate
  }

  predicate IsIncomplete(t: Task) {
    !t.completed
  }
}
