/** The in-memory store: three maps keyed by id (users, subjects, tasks), each with the
    order its keys were first inserted in (the iteration order of a JavaScript `Map`),
    three id counters, and the queries the server answers from them. The current moment
    is a parameter of every operation that reads the clock. */
module Storage {
  import opened Wrappers
  import opened Clock
  import opened Schema
  import opened Seqs
  import opened StableSort
  import opened Ranking
  import opened Reasons
  import opened Schedule
  import opened Analytics

  /** A map together with its iteration order: the keys in strictly increasing order (the
      ids come from a counter that only grows), exactly the map's keys, all below the next
      id to hand out. */
  predicate Ledger<V>(m: map<int, V>, order: seq<int>, next: int) {
    1 <= next
    && (forall i, j :: 0 <= i < j < |order| ==> order[i] < order[j])
    && (forall i :: 0 <= i < |order| ==> order[i] in m && 1 <= order[i] < next)
    && (forall id :: id in m ==> id in order)
  }

  /** `Array.from(map.values())`. */
  function ValuesInOrder<V>(m: map<int, V>, order: seq<int>): (r: seq<V>)
    requires forall i :: 0 <= i < |order| ==> order[i] in m
    ensures |r| == |order|
  {
    seq(|order|, i requires 0 <= i < |order| => m[order[i]])
  }

  /** The map `rs` is stored into one record at a time under the keys 1, 2, .... */
  function Seed<V>(rs: seq<V>): map<int, V>
    decreases |rs|
  {
    if rs == [] then map[] else Seed(rs[..|rs| - 1])[|rs| := rs[|rs| - 1]]
  }

  lemma {:induction false} SeedLookup<V>(rs: seq<V>)
    ensures forall k :: k in Seed(rs) <==> 1 <= k <= |rs|
    ensures forall k :: 1 <= k <= |rs| ==> Seed(rs)[k] == rs[k - 1]
    decreases |rs|
  {
    if rs != [] {
      SeedLookup(rs[..|rs| - 1]);
    }
  }

  /** A map seeded with `n` records is a ledger whose next id is `n + 1`, and lists the
      records in the order they were stored. */
  lemma SeededLedger<V>(rs: seq<V>)
    ensures Ledger(Seed(rs), SeqUpTo(|rs|), |rs| + 1)
    ensures ValuesInOrder(Seed(rs), SeqUpTo(|rs|)) == rs
    ensures forall k :: k in Seed(rs) ==> 1 <= k <= |rs| && Seed(rs)[k] == rs[k - 1]
  {
    var order := SeqUpTo(|rs|);
    SeedLookup(rs);
    forall id | id in Seed(rs)
      ensures id in order
    {
      assert order[id - 1] == id;
    }
  }

  /** `[1, 2, ..., n]`. */
  function SeqUpTo(n: nat): (r: seq<int>)
    ensures |r| == n && forall i :: 0 <= i < n ==> r[i] == i + 1
  {
    seq(n, i requires 0 <= i < n => i + 1)
  }

  /** The predicate "is not the key `id`". */
  function NotKey(id: int): int -> bool {
    (k: int) => k != id
  }

  /** Dropping keys from an increasing order leaves it increasing. */
  lemma {:induction false} FilterIncreasing(s: seq<int>, p: int -> bool)
    requires forall i, j :: 0 <= i < j < |s| ==> s[i] < s[j]
    ensures forall i, j :: 0 <= i < j < |Filter(s, p)| ==> Filter(s, p)[i] < Filter(s, p)[j]
    decreases |s|
  {
    if s != [] {
      var init := s[..|s| - 1];
      FilterIncreasing(init, p);
      FilterMembers(init, p);
      var f := Filter(init, p);
      forall i | 0 <= i < |f|
        ensures f[i] < s[|s| - 1]
      {
        var k :| 0 <= k < |init| && init[k] == f[i];
      }
    }
  }

  /** Storing a record under the next id keeps the ledger, appends the id to the order and the
      record to the list. */
  lemma LedgerInsert<V>(m: map<int, V>, order: seq<int>, next: int, v: V)
    requires Ledger(m, order, next)
    ensures next !in m
    ensures Ledger(m[next := v], order + [next], next + 1)
    ensures ValuesInOrder(m[next := v], order + [next]) == ValuesInOrder(m, order) + [v]
  {
  }

  /** Storing a record under an existing key keeps the ledger and the order, and replaces that
      record in place in the list. */
  lemma LedgerReplace<V>(m: map<int, V>, order: seq<int>, next: int, k: int, v: V)
    requires Ledger(m, order, next) && k in m
    ensures Ledger(m[k := v], order, next)
    ensures forall i :: 0 <= i < |order| ==>
              ValuesInOrder(m[k := v], order)[i] == if order[i] == k then v else ValuesInOrder(m, order)[i]
  {
  }

  /** Deleting a key keeps the ledger with the key dropped from the order. */
  lemma LedgerRemove<V>(m: map<int, V>, order: seq<int>, next: int, k: int)
    requires Ledger(m, order, next)
    ensures Ledger(m - {k}, Filter(order, NotKey(k)), next)
  {
    var o := Filter(order, NotKey(k));
    FilterIncreasing(order, NotKey(k));
    FilterMembers(order, NotKey(k));
    forall id | id in m - {k}
      ensures id in o
    {
      var i :| 0 <= i < |order| && order[i] == id;
    }
  }

  /** The predicate "has not the id `id`". */
  function IdIsNot(id: int): Task -> bool {
    (t: Task) => t.id != id
  }

  /** The task list after deleting a key is the old list without that task. */
  lemma {:induction false} ValuesAfterRemove(m: map<int, Task>, order: seq<int>, k: int)
    requires forall i :: 0 <= i < |order| ==> order[i] in m && m[order[i]].id == order[i]
    ensures forall i :: 0 <= i < |Filter(order, NotKey(k))| ==> Filter(order, NotKey(k))[i] in m - {k}
    ensures ValuesInOrder(m - {k}, Filter(order, NotKey(k))) == Filter(ValuesInOrder(m, order), IdIsNot(k))
    decreases |order|
  {
    FilterMembers(order, NotKey(k));
    if order != [] {
      var init := order[..|order| - 1];
      var last := order[|order| - 1];
      ValuesAfterRemove(m, init, k);
      var vs := ValuesInOrder(m, order);
      assert vs[..|vs| - 1] == ValuesInOrder(m, init);
      assert vs[|vs| - 1] == m[last];
      var o := Filter(order, NotKey(k));
      var oi := Filter(init, NotKey(k));
      if last != k {
        assert o == oi + [last];
        assert ValuesInOrder(m - {k}, o) == ValuesInOrder(m - {k}, oi) + [m[last]];
      } else {
        assert o == oi + [];
        assert ValuesInOrder(m - {k}, o) == ValuesInOrder(m - {k}, oi);
      }
    }
  }

  /** `ts` with the task whose id is `id` replaced by `t`. */
  function ReplaceById(ts: seq<Task>, id: int, t: Task): (r: seq<Task>)
    ensures |r| == |ts|
  {
    seq(|ts|, i requires 0 <= i < |ts| => if ts[i].id == id then t else ts[i])
  }

  /** The predicate "belongs to user `userId`". */
  function OwnedBy(userId: int): Task -> bool {
    (t: Task) => t.userId == userId
  }

  /** The predicate "belongs to `userId` and is due on `day`". */
  function DueOnFor(userId: int, day: int): Task -> bool {
    (t: Task) => t.userId == userId && DayOf(t.deadline) == day
  }

  /** The predicate "belongs to `userId`, is not completed, and is due after `now`". */
  function PendingFor(userId: int, now: Time): Task -> bool {
    (t: Task) => t.userId == userId && !t.completed && t.deadline > now
  }

  /** The predicate "belongs to `userId` and has subject id `subjectId`" (strict equality:
      a task without a subject never matches). */
  function InSubjectFor(userId: int, subjectId: int): Task -> bool {
    (t: Task) => t.userId == userId && t.subjectId == Some(subjectId)
  }

  /** The predicate "subject belongs to `userId`". */
  function SubjectOwnedBy(userId: int): Subject -> bool {
    (s: Subject) => s.userId == userId
  }

  /** Where `slice(0, limit)` ends on a list of length `len`: a negative limit counts back
      from the end. */
  function SliceEnd(len: nat, limit: int): (e: nat)
    ensures e <= len
    ensures limit >= 0 ==> e == if limit < len then limit else len
    ensures limit < 0 ==> e == if len + limit > 0 then len + limit else 0
  {
    if limit < 0 then (if len + limit > 0 then len + limit else 0)
    else if limit < len then limit else len
  }

  const DEFAULT_UPCOMING_LIMIT: int := 10

  function Min(a: int, b: int): int {
    if a <= b then a else b
  }

  function Max(a: int, b: int): int {
    if a >= b then a else b
  }

  /** The reason's deadline phrase for the store's own suggestion: due today (even if the
      moment has passed), overdue, or due in the floor of the days left. */
  function StorageDue(t: Task, now: Time): Due {
    if IsToday(t.deadline, now) then DueToday
    else if IsPast(t.deadline, now) then DueOverdue
    else DueIn(FloorDays(t.deadline - now))
  }

  function StorageReason(t: Task, now: Time): string {
    DueText(StorageDue(t, now)) + (if t.priority == High then HIGH_SUFFIX else "")
  }

  /** The three deadline phrases split the timeline: today's tasks, earlier ones, and later
      ones with a day count of zero or more (zero when the deadline is tomorrow but less
      than 24 hours away). The reason reads back as that phrase and flags exactly the
      high-priority tasks. */
  lemma StorageReasonMeaning(t: Task, now: Time)
    ensures StorageDue(t, now) == DueToday <==> DayOf(t.deadline) == DayOf(now)
    ensures StorageDue(t, now) == DueOverdue <==> DayOf(t.deadline) < DayOf(now)
    ensures StorageDue(t, now).DueIn? <==> DayOf(t.deadline) > DayOf(now)
    ensures StorageDue(t, now).DueIn? ==>
              StorageDue(t, now).days >= 0 && StorageDue(t, now).days == FloorDays(t.deadline - now)
    ensures ParseReason(StorageReason(t, now)) == Some(ReasonInfo(StorageDue(t, now), t.priority == High))
  {
    ReasonRoundTrip(StorageDue(t, now), t.priority == High);
    if DayOf(t.deadline) < DayOf(now) {
      assert t.deadline < now;
    }
    if DayOf(t.deadline) > DayOf(now) {
      assert t.deadline > now;
    }
  }

  /** The phrase is "Due in 0 days" exactly for a deadline on a later day but less than 24
      hours away, which is always tomorrow. */
  lemma DueInZeroDays(t: Task, now: Time)
    ensures StorageDue(t, now) == DueIn(0) <==>
              DayOf(t.deadline) > DayOf(now) && t.deadline - now < MS_PER_DAY
    ensures StorageDue(t, now) == DueIn(0) ==> DayOf(t.deadline) == DayOf(now) + 1
  {
    StorageReasonMeaning(t, now);
    FloorDaysBounds(t.deadline - now);
    if DayOf(t.deadline) > DayOf(now) && t.deadline - now < MS_PER_DAY {
      DayOfMonotone(t.deadline, now + MS_PER_DAY);
      assert DayOf(now + MS_PER_DAY) == DayOf(now) + 1;
    }
  }

  /** The suggestion the store makes for `t`. */
  function SuggestionFor(t: Task, subjects: map<int, Subject>, now: Time): TaskSuggestion {
    TaskSuggestion(t.id, t.title, StorageReason(t, now), SubjectNameIn(subjects, t),
                   t.timeEstimate, t.deadline)
  }

  /** A supplied field replaces the stored one; an absent field keeps it. */
  function Pick<T>(supplied: Option<T>, current: T): T {
    if supplied.Some? then supplied.value else current
  }

  /** `{ ...existingTask, ...updateTask }`. */
  function Merge(t: Task, u: UpdateTask): (r: Task)
    ensures r.id == t.id && r.userId == t.userId && r.createdAt == t.createdAt
  {
    Task(t.id, Pick(u.title, t.title), Pick(u.description, t.description), t.userId,
         Pick(u.subjectId, t.subjectId), Pick(u.taskType, t.taskType),
         Pick(u.deadline, t.deadline), Pick(u.timeEstimate, t.timeEstimate),
         Pick(u.priority, t.priority), Pick(u.completed, t.completed), t.createdAt)
  }

  const NO_CHANGE: UpdateTask := UpdateTask(None, None, None, None, None, None, None, None)

  /** Two updates applied one after the other, as one update: the later one wins on every
      field both supply. */
  function Then(u1: UpdateTask, u2: UpdateTask): UpdateTask {
    UpdateTask(if u2.title.Some? then u2.title else u1.title,
               if u2.description.Some? then u2.description else u1.description,
               if u2.subjectId.Some? then u2.subjectId else u1.subjectId,
               if u2.taskType.Some? then u2.taskType else u1.taskType,
               if u2.deadline.Some? then u2.deadline else u1.deadline,
               if u2.timeEstimate.Some? then u2.timeEstimate else u1.timeEstimate,
               if u2.priority.Some? then u2.priority else u1.priority,
               if u2.completed.Some? then u2.completed else u1.completed)
  }

  /** The empty update changes nothing, an update applied twice is applied once, and two
      updates in a row are their combination. */
  lemma MergeLaws(t: Task, u: UpdateTask, u2: UpdateTask)
    ensures Merge(t, NO_CHANGE) == t
    ensures Merge(Merge(t, u), u) == Merge(t, u)
    ensures Merge(Merge(t, u), u2) == Merge(t, Then(u, u2))
  {
  }

  /** Marking a task completed changes its completion flag and nothing else. */
  lemma CompleteOnly(t: Task)
    ensures Merge(t, NO_CHANGE.(completed := Some(true))) == t.(completed := true)
  {
  }

  function DemoUser(): User {
    User(1, "demo_user", "password123", "Alex Johnson", Some("Computer Science"))
  }

  function DemoSubjects(): seq<Subject> {
    [Subject(1, "Computer Science", 1, "#4338ca"), Subject(2, "Physics", 1, "#a855f7"),
     Subject(3, "English Literature", 1, "#ec4899"), Subject(4, "Mathematics", 1, "#22c55e")]
  }

  /** The four demo tasks, due today and in 3, 5 and 7 days. */
  function DemoTasks(now: Time): seq<Task> {
    [Task(1, "Complete Algorithm Assignment",
          Some("Implement quicksort algorithm and analyze its complexity."), 1, Some(1),
          Assignment, AddDays(now, 0), 120, High, false, AddDays(now, -2)),
     Task(2, "Study for Physics Exam", Some("Review chapters 5-7 on thermodynamics."), 1,
          Some(2), Exam, AddDays(now, 3), 90, Medium, false, AddDays(now, -3)),
     Task(3, "Literature Review Notes", Some("Organize notes on Victorian-era literature."),
          1, Some(3), Study, AddDays(now, 5), 30, Low, false, AddDays(now, -1)),
     Task(4, "Calculus Problem Set", Some("Complete problems 1-15 from Chapter 4."), 1,
          Some(4), Assignment, AddDays(now, 7), 90, Medium, false, now)]
  }

  /** The demo user's suggestion right after seeding is the high-priority task due today. */
  lemma DemoSuggestion(now: Time, k: int)
    requires FirstBest(DemoTasks(now), k, now)
    ensures k == 0
  {
    assert RanksAhead(DemoTasks(now)[0], DemoTasks(now)[1], now);
    assert RanksAhead(DemoTasks(now)[0], DemoTasks(now)[2], now);
    assert RanksAhead(DemoTasks(now)[0], DemoTasks(now)[3], now);
    assert !RanksAhead(DemoTasks(now)[k], DemoTasks(now)[0], now);
  }

  /** The seeded demo tasks form a ledger, listed in seeding order, each under its own id. */
  lemma DemoTaskStore(now: Time)
    ensures Ledger(Seed(DemoTasks(now)), SeqUpTo(4), 5)
    ensures ValuesInOrder(Seed(DemoTasks(now)), SeqUpTo(4)) == DemoTasks(now)
    ensures forall k :: k in Seed(DemoTasks(now)) ==> Seed(DemoTasks(now))[k].id == k
  {
    var dt := DemoTasks(now);
    SeededLedger(dt);
    assert forall i :: 0 <= i < 4 ==> dt[i].id == i + 1;
  }

  lemma DemoSubjectStore()
    ensures Ledger(Seed(DemoSubjects()), SeqUpTo(4), 5)
    ensures ValuesInOrder(Seed(DemoSubjects()), SeqUpTo(4)) == DemoSubjects()
    ensures forall k :: k in Seed(DemoSubjects()) ==> Seed(DemoSubjects())[k].id == k
  {
    var ds := DemoSubjects();
    SeededLedger(ds);
    assert forall i :: 0 <= i < 4 ==> ds[i].id == i + 1;
  }

  lemma DemoUserStore()
    ensures Ledger(Seed([DemoUser()]), SeqUpTo(1), 2)
    ensures ValuesInOrder(Seed([DemoUser()]), SeqUpTo(1)) == [DemoUser()]
    ensures forall k :: k in Seed([DemoUser()]) ==> Seed([DemoUser()])[k].id == k
  {
    SeededLedger([DemoUser()]);
  }

  class MemStorage {
    var users: map<int, User>
    var tasks: map<int, Task>
    var subjects: map<int, Subject>
    var userOrder: seq<int>
    var taskOrder: seq<int>
    var subjectOrder: seq<int>
    var userIdCounter: int
    var taskIdCounter: int
    var subjectIdCounter: int

    predicate Valid()
      reads this
    {
      Ledger(users, userOrder, userIdCounter)
      && Ledger(tasks, taskOrder, taskIdCounter)
      && Ledger(subjects, subjectOrder, subjectIdCounter)
      && (forall id :: id in users ==> users[id].id == id)
      && (forall id :: id in tasks ==> tasks[id].id == id)
      && (forall id :: id in subjects ==> subjects[id].id == id)
    }

    /** A fresh store seeded with the demo user, four subjects and four tasks. */
    constructor (now: Time)
      ensures Valid()
      ensures UserList() == [DemoUser()] && SubjectList() == DemoSubjects()
      ensures TaskList() == DemoTasks(now)
      ensures userIdCounter == 2 && subjectIdCounter == 5 && taskIdCounter == 5
    {
      users := Seed([DemoUser()]);
      userOrder := SeqUpTo(1);
      subjects := Seed(DemoSubjects());
      subjectOrder := SeqUpTo(4);
      tasks := Seed(DemoTasks(now));
      taskOrder := SeqUpTo(4);
      userIdCounter := 2;
      subjectIdCounter := 5;
      taskIdCounter := 5;
      new;
      DemoTaskStore(now);
      DemoSubjectStore();
      DemoUserStore();
    }

    function UserList(): seq<User>
      reads this
      requires Valid()
    {
      ValuesInOrder(users, userOrder)
    }

    function SubjectList(): seq<Subject>
      reads this
      requires Valid()
    {
      ValuesInOrder(subjects, subjectOrder)
    }

    function TaskList(): seq<Task>
      reads this
      requires Valid()
    {
      ValuesInOrder(tasks, taskOrder)
    }

    /** `this.users.get(id)`. */
    function GetUser(id: int): (r: Option<User>)
      reads this
      requires Valid()
      ensures r.Some? <==> id in users
      ensures r.Some? ==> r.value.id == id && r.value == users[id]
    {
      if id in users then Some(users[id]) else None
    }

    /** The first user, in insertion order, with this username. */
    function GetUserByUsername(username: string): (r: Option<User>)
      reads this
      requires Valid()
      ensures r.None? <==> forall i :: 0 <= i < |UserList()| ==> UserList()[i].username != username
      ensures r.Some? ==> r.value.username == username && r.value.id in users
                          && users[r.value.id] == r.value
      ensures r.Some? ==> exists i :: 0 <= i < |UserList()| && UserList()[i] == r.value
                                      && forall j :: 0 <= j < i ==> UserList()[j].username != username
    {
      var us := UserList();
      var f := FindFirst(us, (u: User) => u.username == username);
      if f.Some? then Some(us[f.value]) else None
    }

    /** Every stored task is in the task list exactly once it is stored under its own id. */
    lemma TaskListIsStore()
      requires Valid()
      ensures forall t :: t in TaskList() <==> t.id in tasks && tasks[t.id] == t
    {
      var vs := TaskList();
      forall t: Task | t.id in tasks && tasks[t.id] == t
        ensures t in vs
      {
        var i :| 0 <= i < |taskOrder| && taskOrder[i] == t.id;
        assert vs[i] == t;
      }
    }

    /** Stores a new user under the next user id. */
    method CreateUser(insertUser: InsertUser) returns (user: User)
      requires Valid()
      modifies this
      ensures Valid()
      ensures user == User(old(userIdCounter), insertUser.username, insertUser.password,
                           insertUser.fullName, insertUser.fieldOfStudy)
      ensures user.id !in old(users) && users == old(users)[user.id := user]
      ensures userOrder == old(userOrder) + [user.id] && userIdCounter == old(userIdCounter) + 1
      ensures UserList() == old(UserList()) + [user]
      ensures tasks == old(tasks) && taskOrder == old(taskOrder) && taskIdCounter == old(taskIdCounter)
      ensures subjects == old(subjects) && subjectOrder == old(subjectOrder)
      ensures subjectIdCounter == old(subjectIdCounter)
    {
      var id := userIdCounter;
      userIdCounter := userIdCounter + 1;
      user := User(id, insertUser.username, insertUser.password, insertUser.fullName,
                   insertUser.fieldOfStudy);
      LedgerInsert(users, userOrder, id, user);
      users := users[id := user];
      userOrder := userOrder + [id];
    }

    /** `Array.from(subjects.values()).filter(subject => subject.userId === userId)`. */
    function GetSubjects(userId: int): (r: seq<Subject>)
      reads this
      requires Valid()
      ensures forall s :: s in r <==> s in SubjectList() && s.userId == userId
    {
      FilterMembers(SubjectList(), SubjectOwnedBy(userId));
      Filter(SubjectList(), SubjectOwnedBy(userId))
    }

    /** `this.subjects.get(id)`. */
    function GetSubject(id: int): (r: Option<Subject>)
      reads this
      requires Valid()
      ensures r.Some? <==> id in subjects
      ensures r.Some? ==> r.value.id == id && r.value == subjects[id]
    {
      if id in subjects then Some(subjects[id]) else None
    }

    /** Stores a new subject under the next subject id. */
    method CreateSubject(insertSubject: InsertSubject) returns (subject: Subject)
      requires Valid()
      modifies this
      ensures Valid()
      ensures subject == Subject(old(subjectIdCounter), insertSubject.name, insertSubject.userId,
                                 insertSubject.color)
      ensures subject.id !in old(subjects) && subjects == old(subjects)[subject.id := subject]
      ensures subjectOrder == old(subjectOrder) + [subject.id]
      ensures subjectIdCounter == old(subjectIdCounter) + 1
      ensures SubjectList() == old(SubjectList()) + [subject]
      ensures tasks == old(tasks) && taskOrder == old(taskOrder) && taskIdCounter == old(taskIdCounter)
      ensures users == old(users) && userOrder == old(userOrder) && userIdCounter == old(userIdCounter)
    {
      var id := subjectIdCounter;
      subjectIdCounter := subjectIdCounter + 1;
      subject := Subject(id, insertSubject.name, insertSubject.userId, insertSubject.color);
      LedgerInsert(subjects, subjectOrder, id, subject);
      subjects := subjects[id := subject];
      subjectOrder := subjectOrder + [id];
    }

    /** The user's tasks in store order. The deadline comparator of the source compares two
        unparseable dates and so never reorders anything. */
    function GetTasks(userId: int): (r: seq<Task>)
      reads this
      requires Valid()
      ensures forall t :: t in r <==> t in TaskList() && t.userId == userId
    {
      FilterMembers(TaskList(), OwnedBy(userId));
      Filter(TaskList(), OwnedBy(userId))
    }

    /** `this.tasks.get(id)`. */
    function GetTask(id: int): (r: Option<Task>)
      reads this
      requires Valid()
      ensures r.Some? <==> id in tasks
      ensures r.Some? ==> r.value.id == id && r.value == tasks[id]
    {
      if id in tasks then Some(tasks[id]) else None
    }

    /** Stores a new, not completed task under the next task id, created at `now`. */
    method CreateTask(insertTask: InsertTask, now: Time) returns (task: Task)
      requires Valid()
      modifies this
      ensures Valid()
      ensures task == Task(old(taskIdCounter), insertTask.title, insertTask.description,
                           insertTask.userId, insertTask.subjectId, insertTask.taskType,
                           insertTask.deadline, insertTask.timeEstimate, insertTask.priority,
                           false, now)
      ensures task.id !in old(tasks) && tasks == old(tasks)[task.id := task]
      ensures taskOrder == old(taskOrder) + [task.id] && taskIdCounter == old(taskIdCounter) + 1
      ensures TaskList() == old(TaskList()) + [task]
      ensures GetTask(task.id) == Some(task)
      ensures users == old(users) && userOrder == old(userOrder) && userIdCounter == old(userIdCounter)
      ensures subjects == old(subjects) && subjectOrder == old(subjectOrder)
      ensures subjectIdCounter == old(subjectIdCounter)
    {
      var id := taskIdCounter;
      taskIdCounter := taskIdCounter + 1;
      task := Task(id, insertTask.title, insertTask.description, insertTask.userId,
                   insertTask.subjectId, insertTask.taskType, insertTask.deadline,
                   insertTask.timeEstimate, insertTask.priority, false, now);
      LedgerInsert(tasks, taskOrder, id, task);
      tasks := tasks[id := task];
      taskOrder := taskOrder + [id];
    }

    /** Merges the supplied fields into the stored task, keeping its place in the order;
        `None` and no change when there is no such task. */
    method UpdateTask(id: int, update: UpdateTask) returns (r: Option<Task>)
      requires Valid()
      modifies this
      ensures Valid()
      ensures r.None? <==> id !in old(tasks)
      ensures r.None? ==> tasks == old(tasks)
      ensures r.Some? ==> r.value == Merge(old(tasks)[id], update) && tasks == old(tasks)[id := r.value]
      ensures r.Some? ==> TaskList() == ReplaceById(old(TaskList()), id, r.value)
      ensures taskOrder == old(taskOrder) && taskIdCounter == old(taskIdCounter)
      ensures users == old(users) && userOrder == old(userOrder) && userIdCounter == old(userIdCounter)
      ensures subjects == old(subjects) && subjectOrder == old(subjectOrder)
      ensures subjectIdCounter == old(subjectIdCounter)
    {
      if id !in tasks {
        return None;
      }
      var updated := Merge(tasks[id], update);
      LedgerReplace(tasks, taskOrder, taskIdCounter, id, updated);
      tasks := tasks[id := updated];
      r := Some(updated);
    }

    /** `this.tasks.delete(id)`: whether there was such a task; it is gone afterwards. */
    method DeleteTask(id: int) returns (deleted: bool)
      requires Valid()
      modifies this
      ensures Valid()
      ensures deleted <==> id in old(tasks)
      ensures tasks == old(tasks) - {id} && taskOrder == Filter(old(taskOrder), NotKey(id))
      ensures TaskList() == Filter(old(TaskList()), IdIsNot(id))
      ensures GetTask(id) == None && taskIdCounter == old(taskIdCounter)
      ensures users == old(users) && userOrder == old(userOrder) && userIdCounter == old(userIdCounter)
      ensures subjects == old(subjects) && subjectOrder == old(subjectOrder)
      ensures subjectIdCounter == old(subjectIdCounter)
    {
      deleted := id in tasks;
      LedgerRemove(tasks, taskOrder, taskIdCounter, id);
      ValuesAfterRemove(tasks, taskOrder, id);
      tasks := tasks - {id};
      taskOrder := Filter(taskOrder, NotKey(id));
    }

    /** The user's tasks due on the calendar day of `date`: high priority first, then medium,
        then low, and within a priority in store order. */
    function GetTasksByDate(userId: int, date: Time): (r: seq<Task>)
      reads this
      requires Valid()
      ensures forall t :: t in r <==> t in TaskList() && t.userId == userId && DayOf(t.deadline) == DayOf(date)
      ensures forall i, j :: 0 <= i < j < |r| ==> UrgencyRank(r[i].priority) <= UrgencyRank(r[j].priority)
      ensures forall p :: Filter(r, PriorityIs(p)) == Filter(Filter(TaskList(), DueOnFor(userId, DayOf(date))), PriorityIs(p))
    {
      var day := Filter(TaskList(), DueOnFor(userId, DayOf(date)));
      FilterMembers(TaskList(), DueOnFor(userId, DayOf(date)));
      ByUrgencyKeeps(day);
      ByUrgency(day)
    }

    /** The first `limit` of the user's incomplete tasks due after `now`, in store order (all
        of them when there are fewer); a negative limit drops that many from the end. */
    function GetUpcomingTasks(userId: int, now: Time, limit: int := DEFAULT_UPCOMING_LIMIT): (r: seq<Task>)
      reads this
      requires Valid()
      ensures forall t :: t in r ==> t in TaskList() && t.userId == userId && !t.completed && t.deadline > now
      ensures |r| <= |Filter(TaskList(), PendingFor(userId, now))|
              && r == Filter(TaskList(), PendingFor(userId, now))[..|r|]
      ensures limit >= 0 ==> |r| == Min(limit, |Filter(TaskList(), PendingFor(userId, now))|)
      ensures limit < 0 ==> |r| == Max(|Filter(TaskList(), PendingFor(userId, now))| + limit, 0)
      ensures 0 <= |r| < limit ==>
                forall t :: t in TaskList() && t.userId == userId && !t.completed && t.deadline > now ==> t in r
    {
      var pending := Filter(TaskList(), PendingFor(userId, now));
      FilterMembers(TaskList(), PendingFor(userId, now));
      var r := pending[..SliceEnd(|pending|, limit)];
      assert forall t :: t in r ==> t in pending;
      assert |r| < limit ==> r == pending;
      r
    }

    /** The user's tasks whose subject id is `subjectId`, in store order. */
    function GetTasksBySubject(userId: int, subjectId: int): (r: seq<Task>)
      reads this
      requires Valid()
      ensures forall t :: t in r <==> t in TaskList() && t.userId == userId && t.subjectId == Some(subjectId)
    {
      FilterMembers(TaskList(), InSubjectFor(userId, subjectId));
      Filter(TaskList(), InSubjectFor(userId, subjectId))
    }

    /** The tasks the suggestion is chosen from: the user's incomplete tasks, in store order. */
    function Candidates(userId: int): seq<Task>
      reads this
      requires Valid()
    {
      Filter(GetTasks(userId), IsIncomplete)
    }

    /** No suggestion when all of the user's tasks are completed (or there are none);
        otherwise the suggestion for the first task that no candidate ranks ahead of. */
    method GetSuggestedNextTask(userId: int, now: Time) returns (r: Option<TaskSuggestion>)
      requires Valid()
      ensures r.None? <==> forall t :: t in GetTasks(userId) ==> t.completed
      ensures r.Some? ==> exists k :: FirstBest(Candidates(userId), k, now)
                                      && r.value == SuggestionFor(Candidates(userId)[k], subjects, now)
    {
      var ts := GetTasks(userId);
      FilterMembers(ts, IsIncomplete);
      if |ts| == 0 {
        return None;
      }
      var incomplete := Filter(ts, IsIncomplete);
      if |incomplete| == 0 {
        return None;
      }
      var k := PickNext(incomplete, now);
      var top := incomplete[k];
      var subject := if HasSubject(top) then GetSubject(top.subjectId.value) else None;
      var subjectName := if subject.Some? then subject.value.name else "No Subject";
      var reason := DueText(StorageDue(top, now));
      if top.priority == High {
        reason := reason + HIGH_SUFFIX;
      }
      r := Some(TaskSuggestion(top.id, top.title, reason, subjectName, top.timeEstimate,
                               top.deadline));
      assert incomplete == Candidates(userId);
      assert r.value == SuggestionFor(incomplete[k], subjects, now);
    }

    /** The day plan for `date`: one block per incomplete task of the day, in the day view's
        order, laid out from 10:00 with 30-minute breaks, and the sum of their estimates. */
    method GenerateDailySchedule(userId: int, date: Time, now: Time) returns (plan: DailySchedule)
      requires Valid()
      ensures plan.date == IsoDate(DayOf(date))
      ensures plan.timeBlocks == Layout(Eligible(GetTasksByDate(userId, date)), subjects, date, now)
      ensures plan.totalAllocated == Sum(Eligible(GetTasksByDate(userId, date)), Estimate)
    {
      var ts := GetTasksByDate(userId, date);
      var blocks, total := FillBlocks(ts, subjects, date, now);
      FillStateComplete(ts, subjects, date, now);
      plan := DailySchedule(IsoDate(DayOf(date)), total, blocks);
    }

    /** The share of the user's tasks for each of the user's subjects, highest share first. */
    method GetSubjectDistribution(userId: int) returns (r: seq<SubjectDistribution>)
      requires Valid()
      ensures r == Distribution(GetSubjects(userId), GetTasks(userId))
    {
      var ts := GetTasks(userId);
      var subs := GetSubjects(userId);
      var counts := CountSubjects(ts);
      var total := |ts|;
      var entries := seq(|subs|, j requires 0 <= j < |subs| =>
                         SubjectDistribution(subs[j].id, subs[j].name, subs[j].color,
                                             Percentage(CountOf(counts, subs[j].id), total)));
      assert entries == Entries(subs, ts);
      r := Sort(entries, DescendingPercentage);
    }

    /** Seven entries for the six days before today and today, labelled by weekday, with the
        user's tasks counted in them as the source's day lookup places them. */
    method GetWeeklyProgress(userId: int, now: Time) returns (days: seq<WeeklyProgress>)
      requires Valid()
      ensures days == WeekReport(GetTasks(userId), DayOf(now))
    {
      var today := DayOf(now);
      var ts := GetTasks(userId);
      days := [];
      var i := 6;
      while i >= 0
        invariant -1 <= i <= 6 && |days| == 6 - i
        invariant forall k :: 0 <= k < |days| ==> days[k] == WeeklyProgress(WeekdayName(today - (6 - k)), 0, 0, 0)
      {
        days := days + [WeeklyProgress(WeekdayName(DayOf(AddDays(now, -i))), 0, 0, 0)];
        i := i - 1;
      }
      forall k | 0 <= k < 7
        ensures days[k] == WeekReport([], today)[k]
      {
        WeekReportBounds([], today, k);
      }
      assert ts[..0] == [];
      var j := 0;
      while j < |ts|
        invariant 0 <= j <= |ts|
        invariant days == WeekReport(ts[..j], today)
      {
        var task := ts[j];
        WeekIndexArithmetic(days, today, DayOf(task.deadline));
        WeekStep(ts, j, today);
        var dayIndex := WeekIndex(days, today, DayOf(task.deadline));
        if dayIndex != -1 {
          days := days[dayIndex := Tally(days[dayIndex], task)];
        }
        j := j + 1;
      }
      assert ts[..|ts|] == ts;
    }
  }

  /** `subjectCounts.get(id) || 0`. */
  function CountOf(counts: map<int, int>, sid: int): int {
    if sid in counts then counts[sid] else 0
  }

  /** The distribution's counting `forEach`: one count per subject id, skipping tasks whose
      `subjectId` is falsy; an id never seen counts 0. */
  method CountSubjects(ts: seq<Task>) returns (counts: map<int, int>)
    ensures forall sid :: CountOf(counts, sid) == SubjectCount(ts, sid)
  {
    counts := map[];
    var i := 0;
    assert ts[..0] == [];
    while i < |ts|
      invariant 0 <= i <= |ts|
      invariant forall sid :: CountOf(counts, sid) == SubjectCount(ts[..i], sid)
    {
      var task := ts[i];
      SubjectCountStep(ts, i);
      if HasSubject(task) {
        var sid := task.subjectId.value;
        counts := counts[sid := CountOf(counts, sid) + 1];
      }
      i := i + 1;
    }
    assert ts[..|ts|] == ts;
  }

  /** One more task adds one to the count of its subject (when it has one) and to no other. */
  lemma SubjectCountStep(ts: seq<Task>, i: nat)
    requires i < |ts|
    ensures forall sid :: SubjectCount(ts[..i + 1], sid)
                          == SubjectCount(ts[..i], sid) + (if CountsFor(sid)(ts[i]) then 1 else 0)
  {
    assert ts[..i + 1][..i] == ts[..i];
  }

  /** The day view's order keeps every task, sorts by urgency, and keeps each priority's tasks
      in their original order. */
  lemma ByUrgencyKeeps(s: seq<Task>)
    ensures forall t :: t in ByUrgency(s) <==> t in s
    ensures forall i, j :: 0 <= i < j < |ByUrgency(s)| ==>
              UrgencyRank(ByUrgency(s)[i].priority) <= UrgencyRank(ByUrgency(s)[j].priority)
    ensures forall p :: Filter(ByUrgency(s), PriorityIs(p)) == Filter(s, PriorityIs(p))
  {
    var r := ByUrgency(s);
    assert multiset(r) == multiset(s);
    assert SortedBy(r, UrgencyKey);
    forall t
      ensures t in r <==> t in s
    {
      assert t in r <==> t in multiset(r);
      assert t in s <==> t in multiset(s);
    }
    forall p
      ensures Filter(r, PriorityIs(p)) == Filter(s, PriorityIs(p))
    {
      forall x: Task
        ensures KeyIs(UrgencyKey, UrgencyRank(p))(x) == PriorityIs(p)(x)
      {
        assert KeyIs(UrgencyKey, UrgencyRank(p))(x) == (UrgencyRank(x.priority) == UrgencyRank(p));
        assert UrgencyRank(x.priority) == UrgencyRank(p) <==> x.priority == p by {
          match p
          case High =>
          case Medium =>
          case Low =>
        }
      }
      SortStable(s, UrgencyKey, UrgencyRank(p));
      FilterExtensional(s, KeyIs(UrgencyKey, UrgencyRank(p)), PriorityIs(p));
      FilterExtensional(r, KeyIs(UrgencyKey, UrgencyRank(p)), PriorityIs(p));
    }
  }
}
