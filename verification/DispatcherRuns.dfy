// Every interleaving of submitters, retries, workers and starting dispatchers over the two stores of
// module Dispatcher. Each step is one statement on one store.
module DispatcherRuns {
  import opened Common
  import opened Dispatcher

  // Somebody between two steps.
  datatype Actor =
    | Creating(filePath: string, maxRetries: int)  // found no active task
    | Retrying(payload: Payload)                   // the retry endpoint, after its check
    | Pushing(payload: Payload)                    // about to announce a task
    | Popped(payload: Payload)                     // a worker before its claim
    | Working(payload: Payload)                    // a worker inside process_task
    | Starting                                     // before the stale tasks are requeued
    | Listing                                      // before the queued tasks are listed
    | Publishing(todo: seq<Payload>)

  // What happened to a task: it became queued again or for the first time, somebody retried it, or
  // it was processed.
  datatype Note = BecameQueued(id: nat) | Retried(id: nat) | Processed(id: nat)

  datatype System = System(tasks: Tasks, queue: seq<Payload>, actors: map<nat, Actor>, notes: multiset<Note>)

  // Step parameters that the system does not determine: ids of new actors, fresh task ids, which
  // of the newest active tasks is found, the time, which rows are stale, the order of rows of one time.
  datatype Step =
    | FindActive(a: nat, filePath: string, found: nat)
    | FindNone(a: nat, filePath: string, maxRetries: int)
    | Create(a: nat, id: nat, now: int)
    | CheckRetry(a: nat, id: nat)
    | UpdateRetry(a: nat)
    | Push(a: nat)
    | Pop(a: nat)
    | Claim(a: nat)
    | Finish(a: nat, isIndexed: bool)
    | Start(a: nat)
    | RequeueStale(a: nat, stale: set<nat>)
    | List(a: nat, todo: seq<Payload>)
    | Publish(a: nat)

  ghost predicate IsEnabled(s: System, step: Step) {
    match step
    case FindActive(a, filePath, found) =>
      a !in s.actors && IsNewestActive(s.tasks, found, filePath)
    case FindNone(a, filePath, _) =>
      a !in s.actors && forall id | id in s.tasks && s.tasks[id].filePath == filePath :: !IsActive(s.tasks, id)
    case Create(a, id, _) => a in s.actors && s.actors[a].Creating? && id !in s.tasks
    case CheckRetry(a, id) => a !in s.actors && id in s.tasks && s.tasks[id].status != Processing
    case UpdateRetry(a) => a in s.actors && s.actors[a].Retrying?
    case Push(a) => a in s.actors && s.actors[a].Pushing?
    case Pop(a) => a !in s.actors && s.queue != []
    case Claim(a) => a in s.actors && s.actors[a].Popped?
    case Finish(a, _) => a in s.actors && s.actors[a].Working?
    case Start(a) => a !in s.actors
    case RequeueStale(a, _) => a in s.actors && s.actors[a].Starting?
    case List(a, todo) => a in s.actors && s.actors[a].Listing? && IsListing(todo, s.tasks)
    case Publish(a) => a in s.actors && s.actors[a].Publishing?
  }

  // The rows after a step.
  function TasksAfter(s: System, step: Step): Tasks
    requires IsEnabled(s, step)
  {
    match step
    case Create(a, id, now) => s.tasks[id := NewTask(s.actors[a].filePath, s.actors[a].maxRetries, now)]
    case UpdateRetry(a) => WithStatus(s.tasks, s.actors[a].payload.taskId, Queued)
    case Claim(a) => Claimed(s.tasks, s.actors[a].payload.taskId)
    case Finish(a, isIndexed) =>
      if isIndexed then WithStatus(s.tasks, s.actors[a].payload.taskId, Completed)
      else AfterFailure(s.tasks, s.actors[a].payload.taskId)
    case RequeueStale(_, stale) => Requeued(s.tasks, stale)
    case _ => s.tasks
  }

  function QueueAfter(s: System, step: Step): seq<Payload>
    requires IsEnabled(s, step)
  {
    match step
    case Push(a) => s.queue + [s.actors[a].payload]
    case Pop(a) => s.queue[1..]
    case Publish(a) => if s.actors[a].todo == [] then s.queue else s.queue + [s.actors[a].todo[0]]
    case _ => s.queue
  }

  // Where the actor of a step stands after it, unless it is done.
  function ActorAfter(s: System, step: Step): Option<Actor>
    requires IsEnabled(s, step)
  {
    match step
    case FindActive(_, filePath, found) => Some(Pushing(Payload(found, filePath)))
    case FindNone(_, filePath, maxRetries) => Some(Creating(filePath, maxRetries))
    case Create(a, id, _) => Some(Pushing(Payload(id, s.actors[a].filePath)))
    case CheckRetry(_, id) => Some(Retrying(Payload(id, s.tasks[id].filePath)))
    case UpdateRetry(a) => Some(Pushing(s.actors[a].payload))
    case Push(_) => None
    case Pop(_) => if s.queue[0].filePath == "" then None else Some(Popped(s.queue[0]))
    case Claim(a) =>
      if IsQueued(s.tasks, s.actors[a].payload.taskId) then Some(Working(s.actors[a].payload)) else None
    case Finish(a, _) =>
      if IsQueued(TasksAfter(s, step), s.actors[a].payload.taskId) then Some(Pushing(s.actors[a].payload)) else None
    case Start(_) => Some(Starting)
    case RequeueStale(_, _) => Some(Listing)
    case List(_, todo) => Some(Publishing(todo))
    case Publish(a) => if s.actors[a].todo == [] then None else Some(Publishing(s.actors[a].todo[1..]))
  }

  function ActorsAfter(s: System, step: Step): map<nat, Actor>
    requires IsEnabled(s, step)
  {
    if ActorAfter(s, step).Some? then s.actors[step.a := ActorAfter(s, step).value] else s.actors - {step.a}
  }

  // The tasks that a change of rows makes queued.
  function Newly(before: Tasks, after: Tasks): set<nat> {
    set id | id in after && IsQueued(after, id) && !IsQueued(before, id)
  }

  function NotesAfter(s: System, step: Step): multiset<Note>
    requires IsEnabled(s, step)
  {
    s.notes + multiset(set id | id in Newly(s.tasks, TasksAfter(s, step)) :: BecameQueued(id))
    + match step
      case UpdateRetry(a) => multiset{Retried(s.actors[a].payload.taskId)}
      case Claim(a) => if ActorAfter(s, step).Some? then multiset{Processed(s.actors[a].payload.taskId)} else multiset{}
      case _ => multiset{}
  }

  function Next(s: System, step: Step): System
    requires IsEnabled(s, step)
  {
    System(TasksAfter(s, step), QueueAfter(s, step), ActorsAfter(s, step), NotesAfter(s, step))
  }

  const INITIAL := System(map[], [], map[], multiset{})

  ghost predicate IsRun(s: System, steps: seq<Step>)
    decreases steps
  {
    steps == [] || (IsEnabled(s, steps[0]) && IsRun(Next(s, steps[0]), steps[1..]))
  }

  ghost function After(s: System, steps: seq<Step>): System
    requires IsRun(s, steps)
    decreases steps
  {
    if steps == [] then s else After(Next(s, steps[0]), steps[1..])
  }

  // ----- No task is stranded -----

  predicate Announces(p: Payload, id: nat) { p.taskId == id && p.filePath != "" }

  ghost predicate IsIn(queue: seq<Payload>, id: nat) {
    exists p :: p in queue && Announces(p, id)
  }

  // The actor will announce the task or claim it.
  ghost predicate LooksAfter(actor: Actor, id: nat) {
    match actor
    case Pushing(p) => Announces(p, id)
    case Popped(p) => Announces(p, id)
    case Starting => true
    case Listing => true
    case Publishing(todo) => IsIn(todo, id)
    case _ => false
  }

  ghost predicate IsCovered(s: System, id: nat) {
    IsIn(s.queue, id) || exists a :: a in s.actors && LooksAfter(s.actors[a], id)
  }

  // Every queued task with a path has an entry in the queue or an actor that will push or claim it.
  ghost predicate NoneStranded(s: System) {
    forall id | IsQueued(s.tasks, id) && s.tasks[id].filePath != "" :: IsCovered(s, id)
  }

  // Workers hold usable payloads; retries hold the path of their task.
  ghost predicate IsSound(actor: Actor, tasks: Tasks) {
    match actor
    case Popped(p) => p.filePath != ""
    case Working(p) => p.filePath != ""
    case Retrying(p) => p.taskId in tasks && tasks[p.taskId].filePath == p.filePath
    case _ => true
  }

  ghost predicate ActorsAreSound(s: System) {
    forall a | a in s.actors :: IsSound(s.actors[a], s.tasks)
  }

  // No step changes the path of a task or removes it.
  ghost predicate KeepsPaths(before: Tasks, after: Tasks) {
    forall id | id in before :: id in after && after[id].filePath == before[id].filePath
  }

  lemma StepKeepsPaths(s: System, step: Step)
    requires IsEnabled(s, step)
    ensures KeepsPaths(s.tasks, TasksAfter(s, step))
  {}

  lemma ActorAfterIsSound(s: System, step: Step)
    requires IsEnabled(s, step) && ActorsAreSound(s) && ActorAfter(s, step).Some?
    ensures IsSound(ActorAfter(s, step).value, TasksAfter(s, step))
  {
    if step.Claim? {
      assert IsSound(s.actors[step.a], s.tasks);
    }
  }

  lemma StepKeepsActorsSound(s: System, step: Step)
    requires IsEnabled(s, step) && ActorsAreSound(s)
    ensures ActorsAreSound(Next(s, step))
  {
    StepKeepsPaths(s, step);
    if ActorAfter(s, step).Some? {
      ActorAfterIsSound(s, step);
    }
    OthersStaySound(s, ActorsAfter(s, step), TasksAfter(s, step), step.a);
  }

  lemma OthersStaySound(s: System, actors: map<nat, Actor>, tasks: Tasks, a: nat)
    requires ActorsAreSound(s) && KeepsPaths(s.tasks, tasks) && (a in actors ==> IsSound(actors[a], tasks))
    requires forall b | b in actors && b != a :: b in s.actors && actors[b] == s.actors[b]
    ensures forall b | b in actors :: IsSound(actors[b], tasks)
  {
    forall b | b in actors
      ensures IsSound(actors[b], tasks)
    {
      if b != a {
        assert IsSound(s.actors[b], s.tasks);
      }
    }
  }

  lemma InLonger(queue: seq<Payload>, p: Payload, id: nat)
    ensures IsIn(queue + [p], id) <==> IsIn(queue, id) || Announces(p, id)
  {
    if IsIn(queue, id) {
      var q :| q in queue && Announces(q, id);
      assert q in queue + [p];
    }
    if Announces(p, id) {
      assert p in queue + [p];
    }
  }

  lemma InShorter(queue: seq<Payload>, id: nat)
    requires queue != []
    ensures IsIn(queue, id) <==> IsIn(queue[1..], id) || Announces(queue[0], id)
  {
    if IsIn(queue, id) {
      var q :| q in queue && Announces(q, id);
      assert q == queue[0] || q in queue[1..];
    }
    if IsIn(queue[1..], id) {
      var q :| q in queue[1..] && Announces(q, id);
      assert q in queue;
    }
  }

  // If the acting one still looks after the task, or it entered the queue, or it did not before, the
  // task is covered as it was.
  lemma StillCovered(s: System, next: System, a: nat, id: nat)
    requires IsCovered(s, id)
    requires forall b | b in s.actors && b != a :: b in next.actors && next.actors[b] == s.actors[b]
    requires IsIn(s.queue, id) || (a in s.actors && LooksAfter(s.actors[a], id)) ==>
               IsIn(next.queue, id) || (a in next.actors && LooksAfter(next.actors[a], id))
    ensures IsCovered(next, id)
  {
    if !IsIn(s.queue, id) {
      var b :| b in s.actors && LooksAfter(s.actors[b], id);
      if b != a {
        assert LooksAfter(next.actors[b], id);
      }
    }
  }

  // The steps that do not touch the rows.
  lemma MoveKeepsCover(s: System, step: Step, id: nat)
    requires IsEnabled(s, step) && ActorsAreSound(s) && IsCovered(s, id)
    requires step.FindActive? || step.FindNone? || step.CheckRetry? || step.Push? || step.Pop? || step.Start?
             || step.Publish?
    ensures IsCovered(Next(s, step), id)
  {
    if step.Push? {
      InLonger(s.queue, s.actors[step.a].payload, id);
    } else if step.Pop? {
      InShorter(s.queue, id);
    } else if step.Publish? && s.actors[step.a].todo != [] {
      InLonger(s.queue, s.actors[step.a].todo[0], id);
      InShorter(s.actors[step.a].todo, id);
    }
    StillCovered(s, Next(s, step), step.a, id);
  }

  lemma CoveredBy(s: System, a: nat, id: nat)
    requires a in s.actors && LooksAfter(s.actors[a], id)
    ensures IsCovered(s, id)
  {}

  lemma StepKeepsCover(s: System, step: Step, id: nat)
    requires IsEnabled(s, step) && ActorsAreSound(s) && NoneStranded(s)
    requires var next := Next(s, step).tasks; IsQueued(next, id) && next[id].filePath != ""
    ensures IsCovered(Next(s, step), id)
  {
    match step
    case Create(a, newId, now) => WriteKeepsCover(s, step, id);
    case UpdateRetry(a) => WriteKeepsCover(s, step, id);
    case Claim(a) => WriteKeepsCover(s, step, id);
    case Finish(a, isIndexed) => WriteKeepsCover(s, step, id);
    case RequeueStale(a, stale) => CoveredBy(Next(s, step), a, id);
    case List(a, todo) =>
      assert Payload(id, s.tasks[id].filePath) in todo;
      assert IsIn(todo, id);
      CoveredBy(Next(s, step), a, id);
    case _ => MoveKeepsCover(s, step, id);
  }

  // The steps that write one row.
  lemma WriteKeepsCover(s: System, step: Step, id: nat)
    requires IsEnabled(s, step) && ActorsAreSound(s) && NoneStranded(s)
    requires step.Create? || step.UpdateRetry? || step.Claim? || step.Finish?
    requires var next := Next(s, step).tasks; IsQueued(next, id) && next[id].filePath != ""
    ensures IsCovered(Next(s, step), id)
  {
    if IsQueued(s.tasks, id) && s.tasks[id].filePath != "" {
      WriteKeepsOldCover(s, step, id);
    } else {
      WriterLooksAfter(s, step, id);
      CoveredBy(Next(s, step), step.a, id);
    }
  }

  lemma WriteKeepsOldCover(s: System, step: Step, id: nat)
    requires IsEnabled(s, step) && IsCovered(s, id) && IsQueued(TasksAfter(s, step), id)
    requires step.Create? || step.UpdateRetry? || step.Claim? || step.Finish?
    ensures IsCovered(Next(s, step), id)
  {
    StillCovered(s, Next(s, step), step.a, id);
  }

  lemma WriterLooksAfter(s: System, step: Step, id: nat)
    requires IsEnabled(s, step) && ActorsAreSound(s)
    requires step.Create? || step.UpdateRetry? || step.Claim? || step.Finish?
    requires var next := TasksAfter(s, step); IsQueued(next, id) && next[id].filePath != ""
    requires !(IsQueued(s.tasks, id) && s.tasks[id].filePath != "")
    ensures ActorAfter(s, step).Some? && LooksAfter(ActorAfter(s, step).value, id)
  {}

  lemma StepStrandsNone(s: System, step: Step)
    requires IsEnabled(s, step) && ActorsAreSound(s) && NoneStranded(s)
    ensures ActorsAreSound(Next(s, step)) && NoneStranded(Next(s, step))
  {
    StepKeepsActorsSound(s, step);
    forall id | IsQueued(Next(s, step).tasks, id) && Next(s, step).tasks[id].filePath != ""
      ensures IsCovered(Next(s, step), id)
    {
      StepKeepsCover(s, step, id);
    }
  }

  lemma {:induction false} RunStrandsNone(s: System, steps: seq<Step>)
    requires IsRun(s, steps) && ActorsAreSound(s) && NoneStranded(s)
    ensures ActorsAreSound(After(s, steps)) && NoneStranded(After(s, steps))
    decreases steps
  {
    if steps != [] {
      StepStrandsNone(s, steps[0]);
      RunStrandsNone(Next(s, steps[0]), steps[1..]);
    }
  }

  // In every interleaving from the empty stores no task with a path is stranded.
  lemma NoTaskIsStranded(steps: seq<Step>)
    requires IsRun(INITIAL, steps)
    ensures NoneStranded(After(INITIAL, steps))
  {
    RunStrandsNone(INITIAL, steps);
  }

  // After a crash of everybody, a starting dispatcher covers every task again, whatever the rows and
  // the list hold, and it stays so.
  lemma RestartRecovers(tasks: Tasks, queue: seq<Payload>, notes: multiset<Note>, a: nat, steps: seq<Step>)
    requires IsRun(System(tasks, queue, map[a := Starting], notes), steps)
    ensures NoneStranded(After(System(tasks, queue, map[a := Starting], notes), steps))
  {
    var s := System(tasks, queue, map[a := Starting], notes);
    forall id | IsQueued(s.tasks, id) && s.tasks[id].filePath != ""
      ensures IsCovered(s, id)
    {
      CoveredBy(s, a, id);
    }
    RunStrandsNone(s, steps);
  }

  // At rest, every queued task with a path has an entry in the queue.
  lemma AtRestAllAreInQueue(steps: seq<Step>, id: nat)
    requires IsRun(INITIAL, steps) && After(INITIAL, steps).actors == map[]
    requires var s := After(INITIAL, steps); IsQueued(s.tasks, id) && s.tasks[id].filePath != ""
    ensures IsIn(After(INITIAL, steps).queue, id)
  {
    NoTaskIsStranded(steps);
  }

  // ----- Processing is paid for -----

  function Flag(b: bool): nat { if b then 1 else 0 }

  // What the notes say about one task.
  ghost predicate IsPaid(s: System, id: nat) {
    var (became, retried, processed) := (s.notes[BecameQueued(id)], s.notes[Retried(id)], s.notes[Processed(id)]);
    if id in s.tasks then
      var (task, queued) := (s.tasks[id], Flag(IsQueued(s.tasks, id)));
      && task.attempts == processed && processed + queued <= became
      && task.attempts + queued <= task.maxRetries + retried
    else became == 0 && retried == 0 && processed == 0
  }

  lemma NewlyIsCounted(newly: set<nat>, id: nat)
    ensures var added := multiset(set k | k in newly :: BecameQueued(k));
            added[BecameQueued(id)] == Flag(id in newly) && added[Retried(id)] == 0 && added[Processed(id)] == 0
  {
    var notes := set k | k in newly :: BecameQueued(k);
    assert BecameQueued(id) in notes <==> id in newly;
  }

  lemma NotesAre(s: System, step: Step, id: nat)
    requires IsEnabled(s, step)
    ensures var notes := NotesAfter(s, step);
            && notes[BecameQueued(id)]
               == s.notes[BecameQueued(id)] + Flag(IsQueued(TasksAfter(s, step), id) && !IsQueued(s.tasks, id))
            && notes[Retried(id)]
               == s.notes[Retried(id)] + Flag(step.UpdateRetry? && s.actors[step.a].payload.taskId == id)
            && notes[Processed(id)]
               == s.notes[Processed(id)]
                  + Flag(step.Claim? && s.actors[step.a].payload.taskId == id && IsQueued(s.tasks, id))
  {
    NewlyIsCounted(Newly(s.tasks, TasksAfter(s, step)), id);
  }

  // What a step can do to one row.
  lemma RowAfter(s: System, step: Step, id: nat)
    requires IsEnabled(s, step) && id in s.tasks
    ensures id in TasksAfter(s, step)
    ensures var (task, next) := (s.tasks[id], TasksAfter(s, step)[id]);
            && next.maxRetries == task.maxRetries
            && (if step.Claim? && s.actors[step.a].payload.taskId == id && task.status == Queued then
                  next.status == Processing && next.attempts == task.attempts + 1
                else
                  && next.attempts == task.attempts
                  && (next.status == Queued ==>
                        || task.status == Queued || next.attempts < next.maxRetries
                        || (step.UpdateRetry? && s.actors[step.a].payload.taskId == id)))
  {}

  lemma StepKeepsPaid(s: System, step: Step, id: nat)
    requires IsEnabled(s, step) && ActorsAreSound(s) && IsPaid(s, id)
    ensures IsPaid(Next(s, step), id)
  {
    NotesAre(s, step, id);
    if id in s.tasks {
      RowAfter(s, step, id);
    } else {
      RowAppears(s, step, id);
    }
  }

  lemma RowAppears(s: System, step: Step, id: nat)
    requires IsEnabled(s, step) && ActorsAreSound(s) && id !in s.tasks
    ensures var tasks := TasksAfter(s, step);
            id in tasks ==> tasks[id].status == Queued && tasks[id].attempts == 0 && tasks[id].maxRetries >= 1
    ensures !(step.UpdateRetry? && s.actors[step.a].payload.taskId == id)
  {
    if step.UpdateRetry? {
      assert IsSound(s.actors[step.a], s.tasks);
    }
  }

  lemma {:induction false} RunKeepsPaid(s: System, steps: seq<Step>, id: nat)
    requires IsRun(s, steps) && ActorsAreSound(s) && IsPaid(s, id)
    ensures IsPaid(After(s, steps), id)
    decreases steps
  {
    if steps != [] {
      StepKeepsActorsSound(s, steps[0]);
      StepKeepsPaid(s, steps[0], id);
      RunKeepsPaid(Next(s, steps[0]), steps[1..], id);
    }
  }

  // However many entries a task has, it is processed once for each time it became queued at most;
  // its attempts count exactly these calls, and exceed the limit only by manual retries.
  lemma ProcessingIsPaidFor(steps: seq<Step>, id: nat)
    requires IsRun(INITIAL, steps)
    ensures var s := After(INITIAL, steps);
            && s.notes[Processed(id)] <= s.notes[BecameQueued(id)]
            && (id in s.tasks ==> && s.tasks[id].attempts == s.notes[Processed(id)]
                                  && s.tasks[id].attempts <= s.tasks[id].maxRetries + s.notes[Retried(id)])
  {
    RunKeepsPaid(INITIAL, steps, id);
  }

  // ----- A task without a path -----

  ghost predicate Matches(p: Payload, tasks: Tasks) {
    p.taskId in tasks && tasks[p.taskId].filePath == p.filePath
  }

  ghost predicate ActorMatches(actor: Actor, tasks: Tasks) {
    match actor
    case Retrying(p) => Matches(p, tasks)
    case Pushing(p) => Matches(p, tasks)
    case Popped(p) => Matches(p, tasks) && p.filePath != ""
    case Working(p) => Matches(p, tasks) && p.filePath != ""
    case Publishing(todo) => forall p | p in todo :: Matches(p, tasks)
    case _ => true
  }

  // Entries and actors carry the paths of their tasks, and tasks without a path wait.
  ghost predicate PathsMatch(s: System) {
    && (forall p | p in s.queue :: Matches(p, s.tasks))
    && (forall a | a in s.actors :: ActorMatches(s.actors[a], s.tasks))
  }

  ghost predicate PathlessWait(tasks: Tasks) {
    forall id | id in tasks && tasks[id].filePath == "" :: tasks[id].status == Queued && tasks[id].attempts == 0
  }

  lemma MatchesStays(p: Payload, before: Tasks, after: Tasks)
    requires KeepsPaths(before, after) && Matches(p, before)
    ensures Matches(p, after)
  {}

  lemma ActorMatchesStays(actor: Actor, before: Tasks, after: Tasks)
    requires KeepsPaths(before, after) && ActorMatches(actor, before)
    ensures ActorMatches(actor, after)
  {}

  lemma ActorAfterMatches(s: System, step: Step)
    requires IsEnabled(s, step) && PathsMatch(s) && ActorAfter(s, step).Some?
    ensures ActorMatches(ActorAfter(s, step).value, TasksAfter(s, step))
  {
    StepKeepsPaths(s, step);
    if step.a in s.actors {
      ActorMatchesStays(s.actors[step.a], s.tasks, TasksAfter(s, step));
    }
  }

  lemma QueueAfterMatches(s: System, step: Step)
    requires IsEnabled(s, step) && PathsMatch(s)
    ensures forall p | p in QueueAfter(s, step) :: Matches(p, TasksAfter(s, step))
  {
    StepKeepsPaths(s, step);
    forall p | p in QueueAfter(s, step)
      ensures Matches(p, TasksAfter(s, step))
    {
      if p in s.queue {
        MatchesStays(p, s.tasks, TasksAfter(s, step));
      } else {
        assert ActorMatches(s.actors[step.a], s.tasks);
      }
    }
  }

  lemma StepKeepsPathsMatching(s: System, step: Step)
    requires IsEnabled(s, step) && PathsMatch(s)
    ensures PathsMatch(Next(s, step))
  {
    StepKeepsPaths(s, step);
    QueueAfterMatches(s, step);
    forall a | a in ActorsAfter(s, step)
      ensures ActorMatches(ActorsAfter(s, step)[a], TasksAfter(s, step))
    {
      if a == step.a {
        ActorAfterMatches(s, step);
      } else {
        ActorMatchesStays(s.actors[a], s.tasks, TasksAfter(s, step));
      }
    }
  }

  lemma StepLeavesPathlessWaiting(s: System, step: Step)
    requires IsEnabled(s, step) && PathsMatch(s) && PathlessWait(s.tasks)
    ensures PathlessWait(TasksAfter(s, step))
  {
    if step.a in s.actors {
      assert ActorMatches(s.actors[step.a], s.tasks);
    }
  }

  lemma {:induction false} RunLeavesPathlessWaiting(s: System, steps: seq<Step>)
    requires IsRun(s, steps) && PathsMatch(s) && PathlessWait(s.tasks)
    ensures PathlessWait(After(s, steps).tasks)
    decreases steps
  {
    if steps != [] {
      StepKeepsPathsMatching(s, steps[0]);
      StepLeavesPathlessWaiting(s, steps[0]);
      RunLeavesPathlessWaiting(Next(s, steps[0]), steps[1..]);
    }
  }

  // The worker skips entries with an empty path: such a task stays queued, unprocessed, for ever.
  lemma PathlessTaskIsNeverProcessed(steps: seq<Step>, id: nat)
    requires IsRun(INITIAL, steps) && id in After(INITIAL, steps).tasks
    requires After(INITIAL, steps).tasks[id].filePath == ""
    ensures IsQueued(After(INITIAL, steps).tasks, id) && After(INITIAL, steps).tasks[id].attempts == 0
  {
    RunLeavesPathlessWaiting(INITIAL, steps);
  }

  // A run that takes the stores to these rows and entries and leaves the actors as in before.
  ghost predicate Reaches(s: System, steps: seq<Step>, tasks: Tasks, queue: seq<Payload>, actors: map<nat, Actor>) {
    && IsRun(s, steps) && After(s, steps).tasks == tasks && After(s, steps).queue == queue
    && After(s, steps).actors == actors
  }

  lemma Prepend(s: System, step: Step, steps: seq<Step>, tasks: Tasks, queue: seq<Payload>, actors: map<nat, Actor>)
    requires IsEnabled(s, step) && Reaches(Next(s, step), steps, tasks, queue, actors)
    ensures Reaches(s, [step] + steps, tasks, queue, actors)
  {
    assert ([step] + steps)[1..] == steps;
  }

  lemma SkipPass(s: System, a: nat)
    requires a !in s.actors && s.queue != [] && s.queue[0].filePath == ""
    ensures Reaches(s, [Pop(a)], s.tasks, s.queue[1..], s.actors)
  {
    assert s.actors - {a} == s.actors;
    Prepend(s, Pop(a), [], s.tasks, s.queue[1..], s.actors);
  }

  lemma SubmitPass(s: System, a: nat, id: nat) returns (next: System)
    requires a !in s.actors && id !in s.tasks && s.tasks == map[]
    ensures var (find, create) := (FindNone(a, "", 1), Create(a, id, 0));
            IsEnabled(s, find) && IsEnabled(Next(s, find), create) && next == Next(Next(s, find), create)
    ensures next.tasks == s.tasks[id := NewTask("", 1, 0)] && next.queue == s.queue
    ensures next.actors == s.actors[a := Pushing(Payload(id, ""))]
  {
    next := Next(Next(s, FindNone(a, "", 1)), Create(a, id, 0));
  }

  // And it can be left with no entry and nobody to look after it.
  lemma {:induction false} PathlessTaskIsStranded() returns (steps: seq<Step>)
    ensures IsRun(INITIAL, steps)
    ensures var s := After(INITIAL, steps); IsQueued(s.tasks, 0) && s.queue == [] && s.actors == map[]
  {
    var announced := SubmitPass(INITIAL, 0, 0);
    var pushed, tasks := Next(announced, Push(0)), announced.tasks;
    assert pushed.actors == map[] && pushed.queue == [Payload(0, "")] && pushed.queue[1..] == [];
    SkipPass(pushed, 0);
    Prepend(announced, Push(0), [Pop(0)], tasks, [], map[]);
    Prepend(Next(INITIAL, FindNone(0, "", 1)), Create(0, 0, 0), [Push(0)] + [Pop(0)], tasks, [], map[]);
    steps := [FindNone(0, "", 1)] + ([Create(0, 0, 0)] + ([Push(0)] + [Pop(0)]));
    Prepend(INITIAL, FindNone(0, "", 1), [Create(0, 0, 0)] + ([Push(0)] + [Pop(0)]), tasks, [], map[]);
  }

  // ----- A pass of the worker loop -----

  lemma PushPass(s: System, a: nat, p: Payload, actors: map<nat, Actor>)
    requires a !in actors && s.actors == actors[a := Pushing(p)]
    ensures Reaches(s, [Push(a)], s.tasks, s.queue + [p], actors)
  {
    assert actors[a := Pushing(p)] - {a} == actors;
    Prepend(s, Push(a), [], s.tasks, s.queue + [p], actors);
  }

  lemma FinishPass(s: System, a: nat, p: Payload, isIndexed: bool, actors: map<nat, Actor>) returns (steps: seq<Step>)
    requires a !in actors && s.actors == actors[a := Working(p)]
    ensures var tasks :=
              if isIndexed then WithStatus(s.tasks, p.taskId, Completed) else AfterFailure(s.tasks, p.taskId);
            Reaches(s, steps, tasks, if IsQueued(tasks, p.taskId) then s.queue + [p] else s.queue, actors)
  {
    var step := Finish(a, isIndexed);
    var next := Next(s, step);
    steps := [];
    if IsQueued(next.tasks, p.taskId) {
      assert next.actors == actors[a := Pushing(p)];
      PushPass(next, a, p, actors);
      steps := [Push(a)];
    } else {
      assert next.actors == actors;
    }
    Prepend(s, step, steps, next.tasks,
            if IsQueued(next.tasks, p.taskId) then next.queue + [p] else next.queue, actors);
    steps := [step] + steps;
  }

  // What Dispatcher.IndexingTasks.ConsumeOne does in one go is a run of a worker on its own.
  lemma ConsumeOneIsARun(s: System, a: nat, isIndexed: string -> bool) returns (steps: seq<Step>)
    requires a !in s.actors
    ensures Reaches(s, steps, TasksAfterConsuming(s.tasks, s.queue, isIndexed),
                    QueueAfterConsuming(s.tasks, s.queue, isIndexed), s.actors)
  {
    steps := [];
    if s.queue != [] {
      var p, popped := s.queue[0], Next(s, Pop(a));
      if p.filePath == "" {
        assert popped.actors == s.actors;
      } else {
        var claimed := Next(popped, Claim(a));
        if IsQueued(s.tasks, p.taskId) {
          assert claimed.actors == s.actors[a := Working(p)];
          steps := FinishPass(claimed, a, p, isIndexed(p.filePath), s.actors);
        } else {
          assert claimed.actors == s.actors;
        }
        Prepend(popped, Claim(a), steps, TasksAfterConsuming(s.tasks, s.queue, isIndexed),
                QueueAfterConsuming(s.tasks, s.queue, isIndexed), s.actors);
        steps := [Claim(a)] + steps;
      }
      Prepend(s, Pop(a), steps, TasksAfterConsuming(s.tasks, s.queue, isIndexed),
              QueueAfterConsuming(s.tasks, s.queue, isIndexed), s.actors);
      steps := [Pop(a)] + steps;
    }
  }
}
