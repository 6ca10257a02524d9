// The indexing task queue: task rows in the database and a Redis list that announces them, in
// app/infrastructure/tasks/dispatcher.py, app/application/indexing/service.py,
// app/platform/persistence/repositories/indexing.py and app/api/routes/file.py. This module has the
// stores and the code that changes them; DispatcherRuns interleaves it. Task ids are numbers.
module Dispatcher {
  import opened Common

  datatype Status = Queued | Processing | Completed | FailedPermanently

  datatype Task = Task(filePath: string, status: Status, attempts: nat, maxRetries: int, createdAt: int)

  type Tasks = map<nat, Task>

  datatype Payload = Payload(taskId: nat, filePath: string)

  datatype RetryReply = NotFound | Conflict | Accepted

  // ----- What each statement does to the rows -----

  predicate IsQueued(tasks: Tasks, id: nat) { id in tasks && tasks[id].status == Queued }

  predicate IsActive(tasks: Tasks, id: nat) {
    id in tasks && (tasks[id].status == Queued || tasks[id].status == Processing)
  }

  function NewTask(filePath: string, maxRetries: int, now: int): Task {
    Task(filePath, Queued, 0, if maxRetries > 1 then maxRetries else 1, now)
  }

  function WithStatus(tasks: Tasks, id: nat, status: Status): Tasks {
    if id in tasks then tasks[id := tasks[id].(status := status)] else tasks
  }

  // An update that finds the row still queued.
  function Claimed(tasks: Tasks, id: nat): Tasks {
    if IsQueued(tasks, id) then
      tasks[id := tasks[id].(status := Processing, attempts := tasks[id].attempts + 1)]
    else tasks
  }

  function RetryStatus(task: Task): Status {
    if task.attempts >= task.maxRetries then FailedPermanently else Queued
  }

  function AfterFailure(tasks: Tasks, id: nat): Tasks {
    if id in tasks then WithStatus(tasks, id, RetryStatus(tasks[id])) else tasks
  }

  // Every processing row that is stale is queued again, or fails for good.
  function Requeued(tasks: Tasks, stale: set<nat>): Tasks {
    map id | id in tasks ::
      if id in stale && tasks[id].status == Processing then tasks[id].(status := RetryStatus(tasks[id])) else tasks[id]
  }

  // An active row of the path, and none of them is newer.
  ghost predicate IsNewestActive(tasks: Tasks, id: nat, filePath: string) {
    && IsActive(tasks, id) && tasks[id].filePath == filePath
    && forall other | IsActive(tasks, other) && tasks[other].filePath == filePath ::
         tasks[other].createdAt <= tasks[id].createdAt
  }

  // One payload for each queued row, oldest first.
  ghost predicate IsListing(todo: seq<Payload>, tasks: Tasks) {
    && (forall p | p in todo :: IsQueued(tasks, p.taskId) && p.filePath == tasks[p.taskId].filePath)
    && (forall id | IsQueued(tasks, id) :: Payload(id, tasks[id].filePath) in todo)
    && (forall i, j | 0 <= i < j < |todo| ::
          todo[i] != todo[j] && tasks[todo[i].taskId].createdAt <= tasks[todo[j].taskId].createdAt)
  }

  // The payloads are of queued rows, oldest first, none of them newer than what is left.
  ghost predicate IsOldestFirst(tasks: Tasks, todo: seq<Payload>, left: set<nat>)
    requires left <= tasks.Keys
  {
    && (forall p | p in todo ::
          && IsQueued(tasks, p.taskId) && p.filePath == tasks[p.taskId].filePath && p.taskId !in left
          && forall id | id in left :: tasks[p.taskId].createdAt <= tasks[id].createdAt)
    && (forall i, j | 0 <= i < j < |todo| ::
          todo[i] != todo[j] && tasks[todo[i].taskId].createdAt <= tasks[todo[j].taskId].createdAt)
  }

  lemma NextOldest(tasks: Tasks, todo: seq<Payload>, left: set<nat>, id: nat)
    requires left <= tasks.Keys && IsOldestFirst(tasks, todo, left)
    requires id in left && IsQueued(tasks, id)
    requires forall other | other in left :: tasks[id].createdAt <= tasks[other].createdAt
    ensures IsOldestFirst(tasks, todo + [Payload(id, tasks[id].filePath)], left - {id})
  {
    var next, more := Payload(id, tasks[id].filePath), todo + [Payload(id, tasks[id].filePath)];
    forall i | 0 <= i < |todo|
      ensures todo[i] != next && tasks[todo[i].taskId].createdAt <= tasks[id].createdAt
    {
      assert todo[i] in todo;
    }
  }

  // ----- The repository, the service and the dispatcher -----

  class IndexingTasks {
    var tasks: Tasks
    var queue: seq<Payload>

    constructor ()
      ensures tasks == map[] && queue == []
    {
      tasks, queue := map[], [];
    }

    // ORDER BY created_at DESC LIMIT 1.
    method FindActiveTaskByFilePath(filePath: string) returns (found: Option<nat>)
      ensures if found.Some? then IsNewestActive(tasks, found.value, filePath)
              else forall id | id in tasks && tasks[id].filePath == filePath :: !IsActive(tasks, id)
      ensures found.None? <==> forall id | id in tasks && tasks[id].filePath == filePath ::
                                 tasks[id].status == Completed || tasks[id].status == FailedPermanently
    {
      found := None;
      var left := tasks.Keys;
      while left != {}
        invariant left <= tasks.Keys
        invariant found.Some? ==> IsActive(tasks, found.value) && tasks[found.value].filePath == filePath
        invariant forall id | id in tasks && id !in left && tasks[id].filePath == filePath && IsActive(tasks, id) ::
                    found.Some? && tasks[id].createdAt <= tasks[found.value].createdAt
        decreases left
      {
        var id: nat :| id in left;
        if IsActive(tasks, id) && tasks[id].filePath == filePath
           && (found.None? || tasks[found.value].createdAt < tasks[id].createdAt) {
          found := Some(id);
        }
        left := left - {id};
      }
    }

    // newId stands for the fresh uuid.
    method SubmitTask(filePath: string, maxRetries: int, newId: nat, now: int) returns (id: nat)
      requires newId !in tasks
      modifies this`tasks
      ensures || (tasks == old(tasks) && IsNewestActive(tasks, id, filePath))
              || (id == newId && tasks == old(tasks)[newId := NewTask(filePath, maxRetries, now)]
                  && forall k | k in old(tasks) && old(tasks)[k].filePath == filePath :: !IsActive(old(tasks), k))
    {
      var existing := FindActiveTaskByFilePath(filePath);
      if existing.Some? {
        return existing.value;
      }
      id := newId;
      tasks := tasks[id := NewTask(filePath, maxRetries, now)];
    }

    method EnqueueIndexingTask(id: nat, filePath: string)
      modifies this`queue
      ensures queue == old(queue) + [Payload(id, filePath)]
    {
      queue := queue + [Payload(id, filePath)];
    }

    method ClaimTask(id: nat) returns (claimed: bool)
      modifies this`tasks
      ensures tasks == Claimed(old(tasks), id) && claimed == IsQueued(old(tasks), id)
    {
      claimed := IsQueued(tasks, id);
      if claimed {
        tasks := tasks[id := tasks[id].(status := Processing, attempts := tasks[id].attempts + 1)];
      }
    }

    // isIndexed tells whether indexing the file raised nothing.
    method ProcessTask(id: nat, isIndexed: bool) returns (result: Option<Status>)
      modifies this`tasks
      ensures tasks == if isIndexed then WithStatus(old(tasks), id, Completed) else AfterFailure(old(tasks), id)
      ensures result == if isIndexed then Some(Completed) else if id in tasks then Some(tasks[id].status) else None
    {
      if isIndexed {
        if id in tasks {
          tasks := tasks[id := tasks[id].(status := Completed)];
        }
        return Some(Completed);
      }
      if id !in tasks { return None; }
      var next := if tasks[id].attempts >= tasks[id].maxRetries then FailedPermanently else Queued;
      tasks := tasks[id := tasks[id].(status := next)];
      return Some(next);
    }

    // One pass of the worker loop, with nobody else in between.
    method ConsumeOne(isIndexed: string -> bool) returns (called: Option<Payload>)
      modifies this`tasks, this`queue
      ensures called == Consumed(old(tasks), old(queue))
      ensures tasks == TasksAfterConsuming(old(tasks), old(queue), isIndexed)
      ensures queue == QueueAfterConsuming(old(tasks), old(queue), isIndexed)
    {
      if queue == [] { return None; }
      var payload := queue[0];
      queue := queue[1..];
      if payload.filePath == "" { return None; }
      var claimed := ClaimTask(payload.taskId);
      if !claimed { return None; }
      var result := ProcessTask(payload.taskId, isIndexed(payload.filePath));
      if result == Some(Queued) {
        EnqueueIndexingTask(payload.taskId, payload.filePath);
      }
      return Some(payload);
    }

    method RequeueStaleProcessingTasks(isStale: nat -> bool)
      modifies this`tasks
      ensures tasks == Requeued(old(tasks), set id | id in old(tasks) && isStale(id))
    {
      var left := tasks.Keys;
      ghost var stale := set id | id in tasks && isStale(id);
      while left != {}
        invariant left <= old(tasks).Keys && tasks == Requeued(old(tasks), stale - left)
        decreases left
      {
        var id: nat :| id in left;
        var task := tasks[id];
        if task.status == Processing && isStale(id) {
          tasks := tasks[id := task.(status := RetryStatus(task))];
        }
        left := left - {id};
      }
      assert stale - left == stale;
    }

    // ORDER BY created_at ASC.
    method ListQueued() returns (todo: seq<Payload>)
      ensures IsListing(todo, tasks)
    {
      todo := [];
      var left := set id | id in tasks && tasks[id].status == Queued;
      while left != {}
        invariant left <= tasks.Keys && forall id | id in left :: IsQueued(tasks, id)
        invariant forall id | IsQueued(tasks, id) && id !in left :: Payload(id, tasks[id].filePath) in todo
        invariant IsOldestFirst(tasks, todo, left)
        decreases left
      {
        var id := Oldest(left);
        NextOldest(tasks, todo, left, id);
        left := left - {id};
        todo := todo + [Payload(id, tasks[id].filePath)];
      }
    }

    method Oldest(ids: set<nat>) returns (oldest: nat)
      requires ids != {} && ids <= tasks.Keys
      ensures oldest in ids && forall id | id in ids :: tasks[oldest].createdAt <= tasks[id].createdAt
    {
      oldest :| oldest in ids;
      var left := ids;
      while left != {}
        invariant left <= ids && oldest in ids
        invariant forall id | id in ids && id !in left :: tasks[oldest].createdAt <= tasks[id].createdAt
        decreases left
      {
        var id: nat :| id in left;
        if tasks[id].createdAt < tasks[oldest].createdAt {
          oldest := id;
        }
        left := left - {id};
      }
    }

    // The retry endpoint of the file routes.
    method RetryIndexTask(id: nat) returns (reply: RetryReply)
      modifies this`tasks, this`queue
      ensures reply == if id !in old(tasks) then NotFound
                       else if old(tasks)[id].status == Processing then Conflict else Accepted
      ensures tasks == if reply == Accepted then WithStatus(old(tasks), id, Queued) else old(tasks)
      ensures queue == old(queue) + if reply == Accepted then [Payload(id, old(tasks)[id].filePath)] else []
    {
      if id !in tasks { return NotFound; }
      var task := tasks[id];
      if task.status == Processing { return Conflict; }
      tasks := tasks[id := tasks[id].(status := Queued)];
      EnqueueIndexingTask(id, task.filePath);
      return Accepted;
    }

    // start, with nobody else in between: every queued row is announced.
    method Start(isStale: nat -> bool) returns (todo: seq<Payload>)
      modifies this`tasks, this`queue
      ensures tasks == Requeued(old(tasks), set id | id in old(tasks) && isStale(id))
      ensures IsListing(todo, tasks) && queue == old(queue) + todo
    {
      RequeueStaleProcessingTasks(isStale);
      todo := ListQueued();
      for i := 0 to |todo|
        invariant tasks == Requeued(old(tasks), set id | id in old(tasks) && isStale(id))
        invariant IsListing(todo, tasks) && queue == old(queue) + todo[..i]
      {
        EnqueueIndexingTask(todo[i].taskId, todo[i].filePath);
        assert old(queue) + todo[..i] + [todo[i]] == old(queue) + todo[..i + 1];
      }
      assert todo[..|todo|] == todo;
    }
  }

  // The payload a pass of the worker loop processes, if any.
  function Consumed(tasks: Tasks, queue: seq<Payload>): Option<Payload> {
    if queue != [] && queue[0].filePath != "" && IsQueued(tasks, queue[0].taskId) then Some(queue[0]) else None
  }

  function TasksAfterConsuming(tasks: Tasks, queue: seq<Payload>, isIndexed: string -> bool): Tasks {
    if Consumed(tasks, queue).None? then tasks
    else
      var (claimed, p) := (Claimed(tasks, queue[0].taskId), queue[0]);
      if isIndexed(p.filePath) then WithStatus(claimed, p.taskId, Completed) else AfterFailure(claimed, p.taskId)
  }

  function QueueAfterConsuming(tasks: Tasks, queue: seq<Payload>, isIndexed: string -> bool): seq<Payload> {
    if queue == [] then []
    else if Consumed(tasks, queue).Some? && IsQueued(TasksAfterConsuming(tasks, queue, isIndexed), queue[0].taskId) then
      queue[1..] + [queue[0]]
    else queue[1..]
  }

  // ----- What the statements do to each row -----

  // A claim takes the task exactly when it is still queued, and counts the attempt. A new task has none
  // and may be tried at least once.
  lemma ClaimTells(tasks: Tasks, id: nat, filePath: string, maxRetries: int, now: int)
    ensures Claimed(tasks, id)
            == if id in tasks && tasks[id].status == Queued then
                 var t := tasks[id];
                 tasks[id := Task(t.filePath, Processing, t.attempts + 1, t.maxRetries, t.createdAt)]
               else tasks
    ensures var t := NewTask(filePath, maxRetries, now);
            && t.filePath == filePath && t.status == Queued && t.attempts == 0 && t.createdAt == now
            && t.maxRetries >= 1 && t.maxRetries >= maxRetries && (t.maxRetries == 1 || t.maxRetries == maxRetries)
  {}

  // A row changes its status alone, and only if it is there.
  lemma StatusTells(tasks: Tasks, id: nat, status: Status)
    ensures WithStatus(tasks, id, status)
            == if id in tasks then
                 var t := tasks[id]; tasks[id := Task(t.filePath, status, t.attempts, t.maxRetries, t.createdAt)]
               else tasks
  {}

  // Requeueing changes exactly the stale rows in processing: a row whose attempts are used up fails for
  // good, any other is queued again.
  lemma RequeuedTells(tasks: Tasks, stale: set<nat>, id: nat)
    ensures Requeued(tasks, stale).Keys == tasks.Keys
    ensures id in tasks ==>
              var (before, after) := (tasks[id], Requeued(tasks, stale)[id]);
              if id in stale && before.status == Processing then
                && after == before.(status := after.status)
                && (after.status == FailedPermanently <==> before.attempts >= before.maxRetries)
                && (after.status == Queued <==> before.attempts < before.maxRetries)
              else after == before
  {}

  // One pass of the worker over a task it takes: the attempt is counted, a file that is indexed completes
  // the task, one that is not queues it again while attempts are left, at the end of the queue.
  lemma PassTells(tasks: Tasks, queue: seq<Payload>, isIndexed: string -> bool)
    requires queue != [] && queue[0].filePath != ""
    requires queue[0].taskId in tasks && tasks[queue[0].taskId].status == Queued
    ensures var (p, t) := (queue[0], tasks[queue[0].taskId]);
            var again := !isIndexed(p.filePath) && t.attempts + 1 < t.maxRetries;
            && TasksAfterConsuming(tasks, queue, isIndexed)
               == tasks[p.taskId := Task(t.filePath,
                                         if isIndexed(p.filePath) then Completed
                                         else if again then Queued else FailedPermanently,
                                         t.attempts + 1, t.maxRetries, t.createdAt)]
            && QueueAfterConsuming(tasks, queue, isIndexed) == queue[1..] + if again then [p] else []
  {}

  // Any other entry is dropped and changes no task.
  lemma OtherPassTells(tasks: Tasks, queue: seq<Payload>, isIndexed: string -> bool)
    requires queue == [] || queue[0].filePath == "" || queue[0].taskId !in tasks
             || tasks[queue[0].taskId].status != Queued
    ensures TasksAfterConsuming(tasks, queue, isIndexed) == tasks
    ensures QueueAfterConsuming(tasks, queue, isIndexed) == if queue == [] then [] else queue[1..]
  {}

  // ----- A file that is never indexed -----

  datatype Stores = Stores(tasks: Tasks, queue: seq<Payload>)

  // One pass of one worker.
  function PassOf(isIndexed: string -> bool): Stores -> Stores {
    (s: Stores) => Stores(TasksAfterConsuming(s.tasks, s.queue, isIndexed),
                          QueueAfterConsuming(s.tasks, s.queue, isIndexed))
  }

  function Passes(pass: Stores -> Stores, s: Stores, n: nat): Stores {
    if n == 0 then s else pass(Passes(pass, s, n - 1))
  }

  // The task alone in the queue, after n attempts out of so many.
  function Attempted(tasks: Tasks, id: nat, filePath: string, n: nat, tries: nat, now: int): Stores {
    Stores(tasks[id := Task(filePath, if n < tries then Queued else FailedPermanently, n, tries, now)],
           if n < tries then [Payload(id, filePath)] else [])
  }

  lemma FailingPass(tasks: Tasks, id: nat, filePath: string, n: nat, tries: nat, now: int, isIndexed: string -> bool)
    requires filePath != "" && !isIndexed(filePath) && n < tries
    ensures PassOf(isIndexed)(Attempted(tasks, id, filePath, n, tries, now))
            == Attempted(tasks, id, filePath, n + 1, tries, now)
  {
    var s := Attempted(tasks, id, filePath, n, tries, now);
    PassTells(s.tasks, s.queue, isIndexed);
  }

  lemma {:induction false} PassByPass(pass: Stores -> Stores, at: nat -> Stores, n: nat)
    requires forall k: nat | k < n :: pass(at(k)) == at(k + 1)
    ensures Passes(pass, at(0), n) == at(n)
  {
    if n > 0 {
      PassByPass(pass, at, n - 1);
      assert pass(at(n - 1)) == at(n - 1 + 1);
    }
  }

  // A task whose file is never indexed is processed exactly as often as it may be, max(max_retries, 1)
  // times: it stays queued and announced until the last attempt, which fails it for good.
  lemma TriedExactly(tasks: Tasks, id: nat, filePath: string, maxRetries: int, now: int, isIndexed: string -> bool,
                     n: nat)
    requires filePath != "" && !isIndexed(filePath) && n <= (if maxRetries > 1 then maxRetries else 1)
    ensures var tries := if maxRetries > 1 then maxRetries else 1;
            Passes(PassOf(isIndexed),
                   Stores(tasks[id := NewTask(filePath, maxRetries, now)], [Payload(id, filePath)]), n)
            == Attempted(tasks, id, filePath, n, tries, now)
  {
    var tries := if maxRetries > 1 then maxRetries else 1;
    var pass, at := PassOf(isIndexed), (k: nat) => Attempted(tasks, id, filePath, k, tries, now);
    forall k: nat | k < n
      ensures pass(at(k)) == at(k + 1)
    {
      FailingPass(tasks, id, filePath, k, tries, now, isIndexed);
    }
    PassByPass(pass, at, n);
  }
}
