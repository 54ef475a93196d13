/** The upload queue as a step system. One event is one turn of the event loop: a call from the page, or
  * the settlement of the promise a suspended `run` is waiting for.
  */
module UploadQueue {
  import opened Options

  type TaskId = nat
  type RunId = nat

  datatype Status = Queued | Hashing | Uploading | Completing | Done | Failed | Cancelled

  datatype Task = Task(status: Status, attempts: nat)

  /** What the queue needs to know of a file: whether validation refuses it, and its number of chunks. */
  datatype File = File(rejected: bool, chunks: nat)

  /** The await a live run is suspended at. `Reading(n)` has `n` chunks to go after the current one. */
  datatype Await = Presigning | Reading(left: nat) | Putting | Finishing | Sleeping

  datatype Run = Run(task: TaskId, attempt: nat, at: Await)

  /** `aborted` holds the runs whose controller was aborted; `controllers` the one registered per task. */
  datatype State = State(
    concurrency: nat,
    maxAttempts: nat,
    order: seq<TaskId>,
    tasks: map<TaskId, Task>,
    files: map<TaskId, File>,
    controllers: map<TaskId, RunId>,
    runs: map<RunId, Run>,
    aborted: set<RunId>,
    running: int,
    nextRun: RunId,
    waiters: seq<nat>,
    resolved: seq<nat>,
    nextWaiter: nat
  )

  datatype Settlement = Existing | Single | Fulfilled | Ready | Refused | Rejected

  datatype Event =
    | Add(file: File)
    | Cancel(id: TaskId)
    | Retry(id: TaskId)
    | Idle
    | Settle(run: RunId, with: Settlement)

  // ---------------------------------------------------------------- small steps

  function WithStatus(s: State, id: TaskId, status: Status): State {
    if id in s.tasks then s.(tasks := s.tasks[id := s.tasks[id].(status := status)]) else s
  }

  predicate IsQueued(s: State, id: TaskId) {
    id in s.tasks && s.tasks[id].status == Queued
  }

  function FirstQueued(s: State, order: seq<TaskId>): Option<TaskId> {
    if order == [] then None
    else if IsQueued(s, order[0]) then Some(order[0])
    else FirstQueued(s, order[1..])
  }

  predicate Busy(s: State) {
    s.running > 0 || FirstQueued(s, s.order).Some?
  }

  function Reverse(list: seq<nat>): seq<nat> {
    if list == [] then [] else [list[|list| - 1]] + Reverse(list[..|list| - 1])
  }

  /** `settleIdle`: resolve every waiter once nothing is queued or running. */
  function SettleIdle(s: State): State {
    if Busy(s) then s else s.(resolved := s.resolved + Reverse(s.waiters), waiters := [])
  }

  function QueuedSet(s: State): set<TaskId> {
    set id | id in s.tasks && s.tasks[id].status == Queued
  }

  /** The part of `run` up to its first await. */
  function Launch(s: State, id: TaskId, attempt: nat): State
  {
    s.(tasks := s.tasks[id := Task(Hashing, attempt)],
       controllers := s.controllers[id := s.nextRun],
       runs := s.runs[s.nextRun := Run(id, attempt, Presigning)],
       running := s.running + 1,
       nextRun := s.nextRun + 1)
  }

  /** A `run` whose attempts are used up goes straight to `finally`; before its pump it leaves this state. */
  function Skip(s: State, id: TaskId): State {
    WithStatus(s, id, Hashing).(controllers := s.controllers - {id}, nextRun := s.nextRun + 1)
  }

  lemma {:induction false} FirstQueuedIsQueued(s: State, order: seq<TaskId>)
    ensures var q := FirstQueued(s, order);
      match q
      case Some(id) => id in order && IsQueued(s, id)
      case None => forall id :: id in order ==> !IsQueued(s, id)
  {
    if order != [] { FirstQueuedIsQueued(s, order[1..]); }
  }

  lemma HashingLeavesQueue(s: State, s': State, id: TaskId)
    requires IsQueued(s, id) && id in s'.tasks && s'.tasks[id].status == Hashing
    requires s'.tasks == s.tasks[id := s'.tasks[id]]
    ensures |QueuedSet(s')| < |QueuedSet(s)|
  {
    assert QueuedSet(s') == QueuedSet(s) - {id};
  }

  /** `pump`: start queued tasks in order while there is a free slot. */
  function Pump(s: State): (s': State)
    ensures |QueuedSet(s')| <= |QueuedSet(s)|
    decreases |QueuedSet(s)|
  {
    var next := FirstQueued(s, s.order);
    if s.running >= s.concurrency || next.None? then s
    else
      FirstQueuedIsQueued(s, s.order);
      var id := next.value;
      var attempt := s.tasks[id].attempts + 1;
      if attempt <= s.maxAttempts then
        HashingLeavesQueue(s, Launch(s, id, attempt), id);
        Pump(Launch(s, id, attempt))
      else
        HashingLeavesQueue(s, Skip(s, id), id);
        Pump(SettleIdle(Pump(Skip(s, id))))
  }

  /** The `finally` block of a run. */
  function Finish(s: State, r: RunId): State {
    if r !in s.runs then s
    else
      var id := s.runs[r].task;
      SettleIdle(Pump(s.(controllers := s.controllers - {id}, runs := s.runs - {r}, running := s.running - 1)))
  }

  function At(s: State, r: RunId, at: Await): State {
    if r in s.runs then s.(runs := s.runs[r := s.runs[r].(at := at)]) else s
  }

  /** The `catch` block: an aborted run cancels, a last attempt fails, any other waits to try again. */
  function Catch(s: State, r: RunId): State {
    if r !in s.runs then s
    else
      var run := s.runs[r];
      if r in s.aborted then Finish(WithStatus(s, run.task, Cancelled), r)
      else if run.attempt >= s.maxAttempts then Finish(WithStatus(s, run.task, Failed), r)
      else At(WithStatus(s, run.task, Queued), r, Sleeping)
  }

  /** The hashing loop of `transfer` with `left` chunks to go: the abort flag is read before each chunk. */
  function NextChunk(s: State, r: RunId, left: nat): State {
    if r !in s.runs then s
    else if left == 0 then At(WithStatus(s, s.runs[r].task, Uploading), r, Putting)
    else if r in s.aborted then Catch(s, r)
    else At(s, r, Reading(left - 1))
  }

  function Chunks(s: State, id: TaskId): nat {
    if id in s.files then s.files[id].chunks else 0
  }

  /** Waking up: the next attempt, unless they are used up. */
  function NextAttempt(s: State, r: RunId): State {
    if r !in s.runs then s
    else
      var run := s.runs[r];
      if run.attempt + 1 <= s.maxAttempts then
        s.(tasks := s.tasks[run.task := Task(Hashing, run.attempt + 1)],
           runs := s.runs[r := Run(run.task, run.attempt + 1, Presigning)])
      else Finish(s, r)
  }

  /** A suspended run continues with the settlement of what it awaited; any other pairing cannot happen. */
  function Continue(s: State, r: RunId, with: Settlement): State {
    if r !in s.runs then s
    else
      var run := s.runs[r];
      match (run.at, with)
      case (Presigning, Existing) => Finish(WithStatus(s, run.task, Done), r)
      case (Presigning, Single) => NextChunk(s, r, Chunks(s, run.task))
      case (Reading(left), Fulfilled) => NextChunk(s, r, left)
      case (Putting, Fulfilled) => At(WithStatus(s, run.task, Completing), r, Finishing)
      case (Finishing, Ready) => Finish(WithStatus(s, run.task, Done), r)
      case (Finishing, Refused) => Finish(WithStatus(s, run.task, Failed), r)
      case (Sleeping, Fulfilled) => NextAttempt(s, r)
      case (Sleeping, _) => s
      case (_, Rejected) => Catch(s, r)
      case _ => s
  }

  function AddFile(s: State, file: File): State {
    var id := |s.order|;
    var s' := s.(order := s.order + [id], files := s.files[id := file],
                 tasks := s.tasks[id := Task(if file.rejected then Failed else Queued, 0)]);
    if file.rejected then s' else Pump(s')
  }

  function CancelTask(s: State, id: TaskId): State {
    if id !in s.tasks || s.tasks[id].status == Done then s
    else
      var s1 := if id in s.controllers then s.(aborted := s.aborted + {s.controllers[id]}) else s;
      SettleIdle(WithStatus(s1, id, Cancelled))
  }

  function RetryTask(s: State, id: TaskId): State {
    if id !in s.tasks || (s.tasks[id].status != Failed && s.tasks[id].status != Cancelled) then s
    else if id !in s.files then s
    else if s.files[id].rejected then WithStatus(s, id, Failed)
    else Pump(s.(tasks := s.tasks[id := Task(Queued, 0)]))
  }

  function AwaitIdle(s: State): State {
    if s.running == 0 && FirstQueued(s, s.order).None?
    then s.(resolved := s.resolved + [s.nextWaiter], nextWaiter := s.nextWaiter + 1)
    else s.(waiters := s.waiters + [s.nextWaiter], nextWaiter := s.nextWaiter + 1)
  }

  function Step(s: State, e: Event): State {
    match e
    case Add(file) => AddFile(s, file)
    case Cancel(id) => CancelTask(s, id)
    case Retry(id) => RetryTask(s, id)
    case Idle => AwaitIdle(s)
    case Settle(r, with) => Continue(s, r, with)
  }

  function Initial(concurrency: nat, maxAttempts: nat): State {
    State(concurrency, maxAttempts, [], map[], map[], map[], map[], {}, 0, 0, [], [], 0)
  }

  function Trace(s: State, events: seq<Event>): State {
    if events == [] then s else Step(Trace(s, events[..|events| - 1]), events[|events| - 1])
  }

  // ---------------------------------------------------------------- the invariant

  predicate IsActive(status: Status) {
    status == Hashing || status == Uploading || status == Completing
  }

  ghost predicate HasRun(s: State, id: TaskId) {
    exists r :: r in s.runs && s.runs[r].task == id
  }

  ghost predicate HasSleeper(s: State, id: TaskId) {
    exists r :: r in s.runs && s.runs[r].task == id && s.runs[r].at == Sleeping
  }

  /** The books: every structure speaks of the same tasks, and live runs are counted. */
  ghost predicate Ledger(s: State) {
    && s.running == |s.runs|
    && s.running <= s.concurrency
    && (forall i :: 0 <= i < |s.order| ==> s.order[i] == i)
    && (forall id: TaskId :: id in s.tasks <==> id < |s.order|)
    && s.files.Keys == s.tasks.Keys
    && (forall r :: r in s.runs ==> r < s.nextRun && RunOk(s, s.runs[r]))
    && (forall id :: id in s.controllers ==> s.controllers[id] in s.runs && s.runs[s.controllers[id]].task == id)
  }

  ghost predicate RunOk(s: State, run: Run) {
    run.task in s.tasks && 1 <= run.attempt <= s.maxAttempts && (run.at == Sleeping ==> run.attempt < s.maxAttempts)
  }

  /** A task shown as in progress has a live run; one waiting to be picked again has a fresh budget or a sleeper. */
  ghost predicate TaskOk(s: State, id: TaskId) {
    && id in s.tasks
    && (IsActive(s.tasks[id].status) ==> HasRun(s, id))
    && (s.tasks[id].status == Queued ==> s.tasks[id].attempts == 0 || HasSleeper(s, id))
  }

  ghost predicate TasksOk(s: State) {
    forall id {:trigger TaskOk(s, id)} :: id in s.tasks ==> TaskOk(s, id)
  }

  ghost predicate Core(s: State) {
    Ledger(s) && TasksOk(s)
  }

  /** A task is left waiting only when the slots are full or a live run of its own will wake up for it. */
  ghost predicate NotForgotten(s: State) {
    forall id {:trigger IsQueued(s, id)} :: IsQueued(s, id) ==> s.running >= s.concurrency || HasSleeper(s, id)
  }

  /** Nobody waits for idleness once the queue is idle. */
  ghost predicate NotStranded(s: State) {
    s.waiters != [] ==> Busy(s)
  }

  ghost predicate Inv(s: State) {
    s.maxAttempts >= 1 && Core(s) && NotForgotten(s) && NotStranded(s)
  }

  // ---------------------------------------------------------------- the invariant is kept

  /** The order lists every task, so an empty search means nothing is queued. */
  lemma NoneQueued(s: State, id: TaskId)
    requires Ledger(s) && FirstQueued(s, s.order).None?
    ensures !IsQueued(s, id)
  {
    FirstQueuedIsQueued(s, s.order);
    if id in s.tasks { assert s.order[id] == id; }
  }

  lemma SomeQueued(s: State, id: TaskId)
    requires Ledger(s) && IsQueued(s, id)
    ensures FirstQueued(s, s.order).Some?
  {
    if FirstQueued(s, s.order).None? { NoneQueued(s, id); }
  }

  /** The same tasks, in the sense the books care about. */
  ghost predicate SameTasks(s: State, s': State) {
    && s'.order == s.order && s'.files == s.files && s'.tasks.Keys == s.tasks.Keys
    && s'.concurrency == s.concurrency && s'.maxAttempts == s.maxAttempts
  }

  /** A run of another task, asleep or not, is still there. */
  lemma OtherTaskOk(s: State, s': State, id: TaskId)
    requires TaskOk(s, id) && id in s'.tasks && s'.tasks[id] == s.tasks[id]
    requires forall r :: r in s.runs && s.runs[r].task == id ==> r in s'.runs && s'.runs[r] == s.runs[r]
    ensures TaskOk(s', id)
  {
    if HasRun(s, id) {
      var r :| r in s.runs && s.runs[r].task == id;
      assert r in s'.runs && s'.runs[r].task == id;
    }
    if HasSleeper(s, id) {
      var r :| r in s.runs && s.runs[r].task == id && s.runs[r].at == Sleeping;
      assert r in s'.runs && s'.runs[r].task == id && s'.runs[r].at == Sleeping;
    }
  }

  lemma AddRunCount(runs: map<RunId, Run>, r: RunId, run: Run)
    requires r !in runs
    ensures |runs[r := run]| == |runs| + 1
  {
    assert runs[r := run].Keys == runs.Keys + {r};
  }

  lemma SetRunCount(runs: map<RunId, Run>, r: RunId, run: Run)
    requires r in runs
    ensures |runs[r := run]| == |runs|
  {
    assert runs[r := run].Keys == runs.Keys;
  }

  lemma DropRunCount(runs: map<RunId, Run>, r: RunId)
    requires r in runs
    ensures |runs - {r}| == |runs| - 1
  {
    assert (runs - {r}).Keys == runs.Keys - {r};
  }

  lemma LaunchKeepsLedger(s: State, id: TaskId)
    requires Ledger(s) && IsQueued(s, id) && s.running < s.concurrency
    requires s.tasks[id].attempts + 1 <= s.maxAttempts
    ensures Ledger(Launch(s, id, s.tasks[id].attempts + 1))
  {
    AddRunCount(s.runs, s.nextRun, Run(id, s.tasks[id].attempts + 1, Presigning));
  }

  lemma LaunchKeepsCore(s: State, id: TaskId)
    requires Core(s) && IsQueued(s, id) && s.running < s.concurrency
    requires s.tasks[id].attempts + 1 <= s.maxAttempts
    ensures Core(Launch(s, id, s.tasks[id].attempts + 1))
  {
    var s' := Launch(s, id, s.tasks[id].attempts + 1);
    LaunchKeepsLedger(s, id);
    forall t | t in s'.tasks
      ensures TaskOk(s', t)
    {
      if t == id {
        assert s.nextRun in s'.runs && s'.runs[s.nextRun].task == id;
      } else {
        assert TaskOk(s, t);
        OtherTaskOk(s, s', t);
      }
    }
  }

  lemma StatusKeepsLedger(s: State, id: TaskId, status: Status)
    requires Ledger(s) && id in s.tasks
    ensures Ledger(WithStatus(s, id, status))
  {
    var s' := WithStatus(s, id, status);
    forall q | q in s'.runs
      ensures q < s'.nextRun && RunOk(s', s'.runs[q])
    {
      assert RunOk(s, s.runs[q]);
    }
  }

  lemma SkipKeepsLedger(s: State, id: TaskId)
    requires Ledger(s) && IsQueued(s, id)
    ensures Ledger(Skip(s, id))
  {
    var s1 := WithStatus(s, id, Hashing);
    StatusKeepsLedger(s, id, Hashing);
    hide Ledger;
    KeepsLedger(s1, Skip(s, id));
  }

  lemma KeepsLedger(s: State, s': State)
    requires Ledger(s) && s.nextRun <= s'.nextRun && s'.controllers.Keys <= s.controllers.Keys
    requires forall id :: id in s'.controllers ==> s'.controllers[id] == s.controllers[id]
    requires s' == s.(controllers := s'.controllers, nextRun := s'.nextRun)
    ensures Ledger(s')
  {
    forall q | q in s'.runs
      ensures q < s'.nextRun && RunOk(s', s'.runs[q])
    {
      assert RunOk(s, s.runs[q]);
    }
  }

  /** A skipped task had used up its attempts, so one of its own runs is asleep and still alive. */
  lemma SkipKeepsCore(s: State, id: TaskId)
    requires Core(s) && IsQueued(s, id) && s.maxAttempts >= 1
    requires s.tasks[id].attempts + 1 > s.maxAttempts
    ensures Core(Skip(s, id))
  {
    var s' := Skip(s, id);
    SkipKeepsLedger(s, id);
    SkippedOk(s, id);
    forall t | t in s'.tasks && t != id
      ensures TaskOk(s', t)
    {
      assert TaskOk(s, t);
      hide TaskOk, Ledger;
      OtherTaskOk(s, s', t);
    }
  }

  lemma SkippedOk(s: State, id: TaskId)
    requires TasksOk(s) && IsQueued(s, id) && s.maxAttempts >= 1
    requires s.tasks[id].attempts + 1 > s.maxAttempts
    ensures TaskOk(Skip(s, id), id)
  {
    assert TaskOk(s, id);
    var r :| r in s.runs && s.runs[r].task == id && s.runs[r].at == Sleeping;
    assert r in Skip(s, id).runs && Skip(s, id).runs[r].task == id;
  }

  /** Resolving waiters touches nothing the invariant speaks of except the waiters. */
  lemma SettleKeepsCore(s: State)
    requires Core(s)
    ensures Core(SettleIdle(s)) && NotStranded(SettleIdle(s))
    ensures NotForgotten(s) ==> NotForgotten(SettleIdle(s))
  {
    var s' := SettleIdle(s);
    forall t | t in s'.tasks
      ensures TaskOk(s', t)
    {
      assert TaskOk(s, t);
      OtherTaskOk(s, s', t);
    }
    if NotForgotten(s) {
      forall id {:trigger IsQueued(s', id)} | IsQueued(s', id)
        ensures s'.running >= s'.concurrency || HasSleeper(s', id)
      {
        assert IsQueued(s, id);
        KeepSleeper(s, s', id);
      }
    }
  }

  lemma KeepSleeper(s: State, s': State, id: TaskId)
    requires forall r :: r in s.runs && s.runs[r].task == id && s.runs[r].at == Sleeping ==> r in s'.runs && s'.runs[r] == s.runs[r]
    ensures HasSleeper(s, id) ==> HasSleeper(s', id)
  {
    if HasSleeper(s, id) {
      var r :| r in s.runs && s.runs[r].task == id && s.runs[r].at == Sleeping;
      assert r in s'.runs && s'.runs[r].task == id && s'.runs[r].at == Sleeping;
    }
  }

  /** What pumping may touch: queued tasks and new runs of theirs, nothing else. */
  ghost predicate Pumped(s: State, s': State) {
    && SameTasks(s, s')
    && s'.aborted == s.aborted
    && (forall id :: id in s.tasks && !IsQueued(s, id) ==> s'.tasks[id] == s.tasks[id])
    && (forall r :: r in s.runs ==> r in s'.runs && s'.runs[r] == s.runs[r])
    && (forall r :: r in s'.runs && r !in s.runs ==> IsQueued(s, s'.runs[r].task))
    && (forall id :: IsQueued(s', id) ==> IsQueued(s, id))
  }

  lemma PumpedTransitive(a: State, b: State, c: State)
    requires Pumped(a, b) && Pumped(b, c)
    ensures Pumped(a, c)
  {
  }

  lemma LaunchPumps(s: State, id: TaskId)
    requires Ledger(s) && IsQueued(s, id)
    ensures Pumped(s, Launch(s, id, s.tasks[id].attempts + 1))
  {
    var s' := Launch(s, id, s.tasks[id].attempts + 1);
    assert s.nextRun !in s.runs;
    LaunchChanges(s, id, s.tasks[id].attempts + 1);
    hide Launch, Ledger;
  }

  lemma LaunchChanges(s: State, id: TaskId, attempt: nat)
    requires id in s.tasks && s.nextRun !in s.runs
    ensures var s' := Launch(s, id, attempt);
      && SameTasks(s, s') && s'.aborted == s.aborted
      && s'.tasks == s.tasks[id := Task(Hashing, attempt)]
      && (forall r :: r in s.runs ==> r in s'.runs && s'.runs[r] == s.runs[r])
      && (forall r :: r in s'.runs && r !in s.runs ==> s'.runs[r].task == id)
  {
  }

  lemma SkipPumps(s: State, id: TaskId)
    requires IsQueued(s, id)
    ensures Pumped(s, Skip(s, id)) && Pumped(s, SettleIdle(s))
  {
  }

  /** After pumping the slots are full or nothing is queued, and nobody has been stranded by it. */
  ghost predicate Saturated(s: State) {
    s.running >= s.concurrency || FirstQueued(s, s.order).None?
  }

  lemma {:induction false} PumpKeeps(s: State)
    requires Core(s) && s.maxAttempts >= 1
    ensures Core(Pump(s)) && Saturated(Pump(s)) && Pumped(s, Pump(s))
    ensures NotStranded(s) ==> NotStranded(Pump(s))
    decreases |QueuedSet(s)|
  {
    hide Core, Pumped, SettleIdle, NotStranded, IsQueued;
    var next := FirstQueued(s, s.order);
    if s.running >= s.concurrency || next.None? {
      PumpedSelf(s);
    } else {
      FirstQueuedIsQueued(s, s.order);
      var id := next.value;
      QueuedIsTask(s, id);
      hide FirstQueued, Saturated;
      if s.tasks[id].attempts + 1 <= s.maxAttempts {
        var s1 := Launch(s, id, s.tasks[id].attempts + 1);
        LaunchStep(s, id);
        PumpKeeps(s1);
        PumpedTransitive(s, s1, Pump(s1));
      } else {
        var s1 := Skip(s, id);
        SkipStep(s, id);
        PumpKeeps(s1);
        SkipThenSettle(s, s1);
        PumpKeeps(SettleIdle(Pump(s1)));
        PumpedTransitive(s, SettleIdle(Pump(s1)), Pump(SettleIdle(Pump(s1))));
      }
    }
  }

  lemma QueuedIsTask(s: State, id: TaskId)
    requires IsQueued(s, id)
    ensures id in s.tasks
  {
  }

  lemma LaunchStep(s: State, id: TaskId)
    requires Core(s) && IsQueued(s, id) && s.running < s.concurrency
    requires s.tasks[id].attempts + 1 <= s.maxAttempts
    ensures var s1 := Launch(s, id, s.tasks[id].attempts + 1);
      && Core(s1) && Pumped(s, s1) && NotStranded(s1)
      && |QueuedSet(s1)| < |QueuedSet(s)| && s1.maxAttempts == s.maxAttempts
  {
    CoreHasLedger(s);
    LaunchKeepsCore(s, id);
    hide Core;
    LaunchPumps(s, id);
    LaunchIsBusy(s, id);
    hide Ledger, Pumped;
    HashingLeavesQueue(s, Launch(s, id, s.tasks[id].attempts + 1), id);
  }

  lemma SkipStep(s: State, id: TaskId)
    requires Core(s) && IsQueued(s, id) && s.maxAttempts >= 1
    requires s.tasks[id].attempts + 1 > s.maxAttempts
    ensures var s1 := Skip(s, id);
      && Core(s1) && Pumped(s, s1)
      && |QueuedSet(s1)| < |QueuedSet(s)| && s1.maxAttempts == s.maxAttempts
  {
    SkipKeepsCore(s, id);
    hide Core;
    SkipPumps(s, id);
    hide Pumped;
    HashingLeavesQueue(s, Skip(s, id), id);
  }

  lemma CoreHasLedger(s: State)
    requires Core(s)
    ensures Ledger(s) && s.running >= 0
  {
  }

  lemma PumpedSelf(s: State)
    ensures Pumped(s, s)
  {
  }

  lemma LaunchIsBusy(s: State, id: TaskId)
    requires Ledger(s)
    ensures NotStranded(Launch(s, id, s.tasks[id].attempts + 1))
    requires id in s.tasks
  {
  }

  lemma SkipThenSettle(s: State, s1: State)
    requires Pumped(s, s1) && Pumped(s1, Pump(s1)) && Core(Pump(s1))
    ensures Pumped(s, SettleIdle(Pump(s1))) && Core(SettleIdle(Pump(s1))) && NotStranded(SettleIdle(Pump(s1)))
    ensures |QueuedSet(SettleIdle(Pump(s1)))| == |QueuedSet(Pump(s1))|
    ensures SettleIdle(Pump(s1)).maxAttempts == s.maxAttempts
  {
    var s2 := Pump(s1);
    hide Pump, Core;
    PumpedTransitive(s, s1, s2);
    SettlePumps(s2);
    PumpedTransitive(s, s2, SettleIdle(s2));
    SettleKeepsCore(s2);
    assert QueuedSet(SettleIdle(s2)) == QueuedSet(s2);
  }

  lemma SettlePumps(s: State)
    ensures Pumped(s, SettleIdle(s))
  {
  }

  /** Saturation answers for every task that is still queued. */
  lemma SaturatedForgetsNobody(s: State)
    requires Ledger(s) && Saturated(s)
    ensures NotForgotten(s)
  {
    forall id {:trigger IsQueued(s, id)} | IsQueued(s, id)
      ensures s.running >= s.concurrency
    {
      SomeQueued(s, id);
    }
  }

  lemma PumpRestores(s: State)
    requires Core(s) && s.maxAttempts >= 1 && NotStranded(s)
    ensures Inv(Pump(s)) && Pumped(s, Pump(s))
  {
    PumpKeeps(s);
    SaturatedForgetsNobody(Pump(s));
  }

  lemma PumpSettleRestores(s: State)
    requires Core(s) && s.maxAttempts >= 1
    ensures Inv(SettleIdle(Pump(s))) && Pumped(s, SettleIdle(Pump(s)))
  {
    hide Core, Pumped, Pump;
    PumpKeeps(s);
    CoreHasLedger(Pump(s));
    SaturatedForgetsNobody(Pump(s));
    SettleKeepsCore(Pump(s));
    SettlePumps(Pump(s));
    PumpedTransitive(s, Pump(s), SettleIdle(Pump(s)));
    assert SettleIdle(Pump(s)).maxAttempts == s.maxAttempts by {
      PumpedConfig(s, SettleIdle(Pump(s)));
    }
  }

  lemma PumpedConfig(s: State, s': State)
    requires Pumped(s, s')
    ensures s'.maxAttempts == s.maxAttempts && s'.concurrency == s.concurrency
  {
  }

  /** A change confined to one task and its runs. */
  ghost predicate TouchesOnly(s: State, s': State, t: TaskId) {
    && SameTasks(s, s')
    && (forall id :: id in s.tasks && id != t ==> s'.tasks[id] == s.tasks[id])
    && (forall r :: r in s.runs && s.runs[r].task != t ==> r in s'.runs && s'.runs[r] == s.runs[r])
  }

  lemma TouchKeepsTasks(s: State, s': State, t: TaskId)
    requires TasksOk(s) && TouchesOnly(s, s', t) && (t in s'.tasks ==> TaskOk(s', t))
    ensures TasksOk(s')
  {
    forall id | id in s'.tasks
      ensures TaskOk(s', id)
    {
      if id != t {
        assert TaskOk(s, id);
        OtherTaskOk(s, s', id);
      }
    }
  }

  lemma TouchForgetsNobody(s: State, s': State, t: TaskId)
    requires NotForgotten(s) && TouchesOnly(s, s', t) && s'.running == s.running
    requires IsQueued(s', t) ==> HasSleeper(s', t)
    ensures NotForgotten(s')
  {
    forall id {:trigger IsQueued(s', id)} | IsQueued(s', id)
      ensures s'.running >= s'.concurrency || HasSleeper(s', id)
    {
      if id != t {
        assert IsQueued(s, id);
        KeepSleeper(s, s', id);
      }
    }
  }

  predicate IsTerminal(status: Status) {
    status == Done || status == Failed || status == Cancelled
  }

  /** A live run reports progress, or the page closes a task: neither forgets anyone. */
  lemma StatusKeepsCore(s: State, id: TaskId, status: Status)
    requires Core(s) && id in s.tasks
    requires IsTerminal(status) || (IsActive(status) && HasRun(s, id))
    ensures Core(WithStatus(s, id, status)) && TouchesOnly(s, WithStatus(s, id, status), id)
    ensures NotForgotten(s) ==> NotForgotten(WithStatus(s, id, status))
  {
    var s' := WithStatus(s, id, status);
    forall r | r in s'.runs
      ensures RunOk(s', s'.runs[r])
    {
      assert RunOk(s, s.runs[r]);
    }
    if HasRun(s, id) {
      var r :| r in s.runs && s.runs[r].task == id;
      assert r in s'.runs && s'.runs[r].task == id;
    }
    TouchKeepsTasks(s, s', id);
    if NotForgotten(s) { TouchForgetsNobody(s, s', id); }
  }

  function Removed(s: State, r: RunId): State
    requires r in s.runs
  {
    s.(controllers := s.controllers - {s.runs[r].task}, runs := s.runs - {r}, running := s.running - 1)
  }

  lemma RemovedKeepsLedger(s: State, r: RunId)
    requires Ledger(s) && r in s.runs
    ensures Ledger(Removed(s, r))
  {
    DropRunCount(s.runs, r);
    var s' := Removed(s, r);
    forall q | q in s'.runs
      ensures q < s'.nextRun && RunOk(s', s'.runs[q])
    {
      assert RunOk(s, s.runs[q]);
    }
  }

  /** A run whose task has reached its end leaves; pumping and settling restore the whole invariant. */
  lemma FinishRestores(s: State, r: RunId)
    requires Core(s) && s.maxAttempts >= 1 && r in s.runs
    requires s.runs[r].task in s.tasks && IsTerminal(s.tasks[s.runs[r].task].status)
    ensures Inv(Finish(s, r)) && Pumped(Removed(s, r), Finish(s, r))
  {
    var s1 := Removed(s, r);
    RemovedKeepsLedger(s, r);
    assert TaskOk(s1, s.runs[r].task);
    TouchKeepsTasks(s, s1, s.runs[r].task);
    hide Ledger, TasksOk;
    PumpSettleRestores(s1);
  }

  lemma EndKeepsInv(s: State, r: RunId, status: Status)
    requires Inv(s) && r in s.runs && IsTerminal(status)
    ensures Inv(Finish(WithStatus(s, s.runs[r].task, status), r))
    ensures Pumped(Removed(WithStatus(s, s.runs[r].task, status), r), Finish(WithStatus(s, s.runs[r].task, status), r))
  {
    assert RunOk(s, s.runs[r]);
    StatusKeepsCore(s, s.runs[r].task, status);
    hide Core, NotForgotten, NotStranded;
    FinishRestores(WithStatus(s, s.runs[r].task, status), r);
  }

  /** Moving a live run from one await to another. */
  lemma MoveKeepsLedger(s: State, r: RunId, run: Run)
    requires Ledger(s) && r in s.runs && run.task == s.runs[r].task && RunOk(s, run)
    ensures Ledger(s.(runs := s.runs[r := run]))
  {
    SetRunCount(s.runs, r, run);
    var s' := s.(runs := s.runs[r := run]);
    forall q | q in s'.runs
      ensures q < s'.nextRun && RunOk(s', s'.runs[q])
    {
      assert RunOk(s, s.runs[q]);
    }
  }

  lemma LiveIsBusy(s: State, r: RunId)
    requires Ledger(s) && r in s.runs
    ensures NotStranded(s)
  {
    assert r in s.runs.Keys;
  }

  /** A run that is not asleep moves on, its task showing progress. */
  lemma ProgressKeepsInv(s: State, r: RunId, status: Status, at: Await)
    requires Inv(s) && r in s.runs && s.runs[r].at != Sleeping && at != Sleeping && IsActive(status)
    ensures Inv(At(WithStatus(s, s.runs[r].task, status), r, at))
  {
    var t := s.runs[r].task;
    assert RunOk(s, s.runs[r]);
    StatusKeepsCore(s, t, status);
    var s1 := WithStatus(s, t, status);
    AwaitKeepsInv(s1, r, at);
  }

  lemma AwaitKeepsInv(s: State, r: RunId, at: Await)
    requires s.maxAttempts >= 1 && Core(s) && NotForgotten(s) && r in s.runs && s.runs[r].at != Sleeping && at != Sleeping
    ensures Inv(At(s, r, at))
  {
    var t := s.runs[r].task;
    var s' := At(s, r, at);
    assert RunOk(s, s.runs[r]);
    MoveKeepsLedger(s, r, s.runs[r].(at := at));
    KeepSleeper(s, s', t);
    assert TaskOk(s, t);
    assert r in s'.runs && s'.runs[r].task == t;
    TouchKeepsTasks(s, s', t);
    MovedForgetsNobody(s, s', t);
    LiveIsBusy(s', r);
  }

  lemma MovedForgetsNobody(s: State, s': State, t: TaskId)
    requires NotForgotten(s) && TouchesOnly(s, s', t) && s'.running == s.running
    requires IsQueued(s', t) ==> IsQueued(s, t)
    requires HasSleeper(s, t) ==> HasSleeper(s', t)
    ensures NotForgotten(s')
  {
    forall id {:trigger IsQueued(s', id)} | IsQueued(s', id)
      ensures s'.running >= s'.concurrency || HasSleeper(s', id)
    {
      assert IsQueued(s, id);
      if id != t { KeepSleeper(s, s', id); }
    }
  }

  /** A failed attempt that is not the last: the run sleeps, the task shows as queued. */
  lemma SleepKeepsInv(s: State, r: RunId)
    requires Inv(s) && r in s.runs && s.runs[r].attempt < s.maxAttempts
    ensures Inv(At(WithStatus(s, s.runs[r].task, Queued), r, Sleeping))
  {
    var t := s.runs[r].task;
    assert RunOk(s, s.runs[r]);
    var s1 := WithStatus(s, t, Queued);
    var s' := At(s1, r, Sleeping);
    StatusKeepsLedger(s, t, Queued);
    MoveKeepsLedger(s1, r, s1.runs[r].(at := Sleeping));
    assert r in s'.runs && s'.runs[r].task == t && s'.runs[r].at == Sleeping;
    assert HasSleeper(s', t);
    TouchKeepsTasks(s, s', t);
    TouchForgetsNobody(s, s', t);
    LiveIsBusy(s', r);
  }

  lemma CatchKeepsInv(s: State, r: RunId)
    requires Inv(s) && r in s.runs
    ensures Inv(Catch(s, r))
  {
    hide Inv, Finish;
    if r in s.aborted {
      EndKeepsInv(s, r, Cancelled);
    } else if s.runs[r].attempt >= s.maxAttempts {
      EndKeepsInv(s, r, Failed);
    } else {
      SleepKeepsInv(s, r);
    }
  }

  lemma NextChunkKeepsInv(s: State, r: RunId, left: nat)
    requires Inv(s) && r in s.runs && s.runs[r].at != Sleeping
    ensures Inv(NextChunk(s, r, left))
  {
    hide Catch;
    if left == 0 {
      ProgressKeepsInv(s, r, Uploading, Putting);
    } else if r in s.aborted {
      CatchKeepsInv(s, r);
    } else {
      AwaitKeepsInv(s, r, Reading(left - 1));
    }
  }

  /** Waking up: the budget is never used up here, because only a run with attempts left goes to sleep. */
  lemma WakeKeepsInv(s: State, r: RunId)
    requires Inv(s) && r in s.runs && s.runs[r].at == Sleeping
    ensures Inv(NextAttempt(s, r)) && s.runs[r].attempt + 1 <= s.maxAttempts
  {
    hide NextAttempt, Ledger, TasksOk, NotForgotten, NotStranded, TouchesOnly, HasSleeper, IsQueued;
    MayWake(s, r);
    WakeKeepsLedger(s, r);
    WakeTouches(s, r);
    var s', t := NextAttempt(s, r), s.runs[r].task;
    TouchKeepsTasks(s, s', t);
    TouchForgetsNobody(s, s', t);
    LiveIsBusy(s', r);
  }

  lemma MayWake(s: State, r: RunId)
    requires Ledger(s) && r in s.runs && s.runs[r].at == Sleeping
    ensures s.runs[r].attempt + 1 <= s.maxAttempts && s.runs[r].task in s.tasks
  {
    assert RunOk(s, s.runs[r]);
  }

  lemma WakeKeepsLedger(s: State, r: RunId)
    requires Ledger(s) && r in s.runs && s.runs[r].at == Sleeping && s.runs[r].attempt + 1 <= s.maxAttempts
    ensures Ledger(NextAttempt(s, r))
  {
    hide NextAttempt;
    var run := s.runs[r];
    assert RunOk(s, run);
    WakesAs(s, r);
    RetaskKeepsLedger(s, run.task, Task(Hashing, run.attempt + 1));
    MoveKeepsLedger(s.(tasks := s.tasks[run.task := Task(Hashing, run.attempt + 1)]), r, Run(run.task, run.attempt + 1, Presigning));
  }

  lemma WakeTouches(s: State, r: RunId)
    requires r in s.runs && s.runs[r].task in s.tasks && s.runs[r].attempt + 1 <= s.maxAttempts
    ensures var s', t := NextAttempt(s, r), s.runs[r].task;
      && TouchesOnly(s, s', t) && TaskOk(s', t) && !IsQueued(s', t)
      && s'.running == s.running && s'.maxAttempts == s.maxAttempts && s'.waiters == s.waiters && r in s'.runs
  {
    hide NextAttempt;
    WakesAs(s, r);
    var s', t := NextAttempt(s, r), s.runs[r].task;
    assert r in s'.runs && s'.runs[r].task == t;
    assert HasRun(s', t);
  }

  lemma WakesAs(s: State, r: RunId)
    requires r in s.runs && s.runs[r].attempt + 1 <= s.maxAttempts
    ensures var run := s.runs[r];
      NextAttempt(s, r) == s.(tasks := s.tasks[run.task := Task(Hashing, run.attempt + 1)],
                              runs := s.runs[r := Run(run.task, run.attempt + 1, Presigning)])
  {
    hide Finish;
  }

  lemma RetaskKeepsLedger(s: State, t: TaskId, task: Task)
    requires Ledger(s) && t in s.tasks
    ensures Ledger(s.(tasks := s.tasks[t := task]))
  {
    var s' := s.(tasks := s.tasks[t := task]);
    forall q | q in s'.runs
      ensures q < s'.nextRun && RunOk(s', s'.runs[q])
    {
      assert RunOk(s, s.runs[q]);
    }
  }

  lemma ContinueKeepsInv(s: State, r: RunId, with: Settlement)
    requires Inv(s)
    ensures Inv(Continue(s, r, with))
  {
    hide Inv, Finish, Catch, NextChunk, NextAttempt, At, WithStatus;
    if r in s.runs {
      var run := s.runs[r];
      match (run.at, with) {
        case (Presigning, Existing) => EndKeepsInv(s, r, Done);
        case (Presigning, Single) => NextChunkKeepsInv(s, r, Chunks(s, run.task));
        case (Reading(left), Fulfilled) => NextChunkKeepsInv(s, r, left);
        case (Putting, Fulfilled) => ProgressKeepsInv(s, r, Completing, Finishing);
        case (Finishing, Ready) => EndKeepsInv(s, r, Done);
        case (Finishing, Refused) => EndKeepsInv(s, r, Failed);
        case (Sleeping, Fulfilled) => WakeKeepsInv(s, r);
        case (Sleeping, _) =>
        case (_, Rejected) => CatchKeepsInv(s, r);
        case _ =>
      }
    }
  }

  // ---------------------------------------------------------------- calls from the page

  lemma AddKeepsInv(s: State, file: File)
    requires Inv(s)
    ensures Inv(AddFile(s, file))
  {
    var id := |s.order|;
    var s' := s.(order := s.order + [id], files := s.files[id := file],
                 tasks := s.tasks[id := Task(if file.rejected then Failed else Queued, 0)]);
    AddKeepsCore(s, file, s');
    hide Core;
    if file.rejected {
      AddRejected(s, s', id);
    } else {
      FirstQueuedIsQueued(s', s'.order);
      assert s'.order[id] == id && IsQueued(s', id);
      PumpRestores(s');
    }
  }

  lemma AddKeepsCore(s: State, file: File, s': State)
    requires Core(s)
    requires var id := |s.order|;
      s' == s.(order := s.order + [id], files := s.files[id := file],
               tasks := s.tasks[id := Task(if file.rejected then Failed else Queued, 0)])
    ensures Core(s')
  {
    AddKeepsLedger(s, file, s');
    hide Ledger;
    forall t {:trigger TaskOk(s', t)} | t in s'.tasks
      ensures TaskOk(s', t)
    {
      if t in s.tasks && t != |s.order| {
        assert TaskOk(s, t);
        OtherTaskOk(s, s', t);
      }
    }
  }

  lemma AddKeepsLedger(s: State, file: File, s': State)
    requires Ledger(s)
    requires var id := |s.order|;
      s' == s.(order := s.order + [id], files := s.files[id := file],
               tasks := s.tasks[id := Task(if file.rejected then Failed else Queued, 0)])
    ensures Ledger(s')
  {
    forall q | q in s'.runs
      ensures q < s'.nextRun && RunOk(s', s'.runs[q])
    {
      assert RunOk(s, s.runs[q]);
    }
  }

  lemma AddRejected(s: State, s': State, id: TaskId)
    requires Inv(s) && Ledger(s') && id !in s.tasks && s'.tasks == s.tasks[id := Task(Failed, 0)]
    requires s'.runs == s.runs && s'.running == s.running && s'.concurrency == s.concurrency && s'.waiters == s.waiters
    ensures NotForgotten(s') && NotStranded(s')
  {
    forall t {:trigger IsQueued(s', t)} | IsQueued(s', t)
      ensures s'.running >= s'.concurrency || HasSleeper(s', t)
    {
      assert IsQueued(s, t);
      KeepSleeper(s, s', t);
    }
    if s.waiters != [] && s.running <= 0 {
      FirstQueuedIsQueued(s, s.order);
      SomeQueued(s', FirstQueued(s, s.order).value);
    }
  }

  lemma CancelKeepsInv(s: State, id: TaskId)
    requires Inv(s)
    ensures Inv(CancelTask(s, id))
  {
    if id in s.tasks && s.tasks[id].status != Done {
      var s1 := if id in s.controllers then s.(aborted := s.aborted + {s.controllers[id]}) else s;
      AbortKeepsCore(s, s1);
      hide Core, NotForgotten;
      StatusKeepsCore(s1, id, Cancelled);
      SettleKeepsCore(WithStatus(s1, id, Cancelled));
    }
  }

  lemma AbortKeepsCore(s: State, s': State)
    requires Core(s) && NotForgotten(s) && s' == s.(aborted := s'.aborted)
    ensures Core(s') && NotForgotten(s')
  {
    forall t | t in s'.tasks
      ensures TaskOk(s', t)
    {
      assert TaskOk(s, t);
      OtherTaskOk(s, s', t);
    }
    forall q | q in s'.runs
      ensures RunOk(s', s'.runs[q])
    {
      assert RunOk(s, s.runs[q]);
    }
    forall t {:trigger IsQueued(s', t)} | IsQueued(s', t)
      ensures s'.running >= s'.concurrency || HasSleeper(s', t)
    {
      assert IsQueued(s, t);
      KeepSleeper(s, s', t);
    }
  }

  lemma RetryKeepsInv(s: State, id: TaskId)
    requires Inv(s)
    ensures Inv(RetryTask(s, id))
  {
    if id in s.tasks && (s.tasks[id].status == Failed || s.tasks[id].status == Cancelled) && id in s.files {
      if s.files[id].rejected {
        StatusKeepsCore(s, id, Failed);
        RetryRejected(s, id);
      } else {
        var s' := s.(tasks := s.tasks[id := Task(Queued, 0)]);
        RetaskKeepsLedger(s, id, Task(Queued, 0));
        TouchKeepsTasks(s, s', id);
        SomeQueued(s', id);
        hide Core;
        PumpRestores(s');
      }
    }
  }

  lemma RetryRejected(s: State, id: TaskId)
    requires Inv(s) && id in s.tasks && IsTerminal(s.tasks[id].status) && Ledger(WithStatus(s, id, Failed))
    ensures NotStranded(WithStatus(s, id, Failed))
  {
    var s' := WithStatus(s, id, Failed);
    if s.waiters != [] && s.running <= 0 {
      FirstQueuedIsQueued(s, s.order);
      SomeQueued(s', FirstQueued(s, s.order).value);
    }
  }

  lemma IdleKeepsInv(s: State)
    requires Inv(s)
    ensures Inv(AwaitIdle(s))
  {
    var s' := AwaitIdle(s);
    forall t | t in s'.tasks
      ensures TaskOk(s', t)
    {
      assert TaskOk(s, t);
      OtherTaskOk(s, s', t);
    }
    forall q | q in s'.runs
      ensures RunOk(s', s'.runs[q])
    {
      assert RunOk(s, s.runs[q]);
    }
    forall t {:trigger IsQueued(s', t)} | IsQueued(s', t)
      ensures s'.running >= s'.concurrency || HasSleeper(s', t)
    {
      assert IsQueued(s, t);
      KeepSleeper(s, s', t);
    }
    SearchSameTasks(s, s', s.order);
  }

  lemma {:induction false} SearchSameTasks(s: State, s': State, order: seq<TaskId>)
    requires s'.tasks == s.tasks
    ensures FirstQueued(s', order) == FirstQueued(s, order)
  {
    if order != [] { SearchSameTasks(s, s', order[1..]); }
  }

  // ---------------------------------------------------------------- every interleaving

  lemma StepKeepsInv(s: State, e: Event)
    requires Inv(s)
    ensures Inv(Step(s, e))
  {
    hide Inv, AddFile, CancelTask, RetryTask, AwaitIdle, Continue;
    match e
    case Add(file) => AddKeepsInv(s, file);
    case Cancel(id) => CancelKeepsInv(s, id);
    case Retry(id) => RetryKeepsInv(s, id);
    case Idle => IdleKeepsInv(s);
    case Settle(r, with) => ContinueKeepsInv(s, r, with);
  }

  lemma InitialInv(concurrency: nat, maxAttempts: nat)
    requires maxAttempts >= 1
    ensures Inv(Initial(concurrency, maxAttempts))
  {
    var s := Initial(concurrency, maxAttempts);
    assert FirstQueued(s, s.order).None?;
    assert s.files.Keys == s.tasks.Keys;
  }

  lemma {:induction false} EveryInterleaving(concurrency: nat, maxAttempts: nat, events: seq<Event>)
    requires maxAttempts >= 1
    ensures Inv(Trace(Initial(concurrency, maxAttempts), events))
    decreases |events|
  {
    hide Inv, Step, Initial;
    if events == [] {
      InitialInv(concurrency, maxAttempts);
    } else {
      EveryInterleaving(concurrency, maxAttempts, events[..|events| - 1]);
      StepKeepsInv(Trace(Initial(concurrency, maxAttempts), events[..|events| - 1]), events[|events| - 1]);
    }
  }

  // ---------------------------------------------------------------- what the invariant means

  /** Live runs are what `running` counts, and they never exceed the limit. */
  lemma LiveRunsAreBounded(s: State)
    requires Inv(s)
    ensures |s.runs| == s.running <= s.concurrency
  {
  }

  /** With at least one slot, a queued task always has something running that will get to it. */
  lemma QueuedMeansRunning(s: State, id: TaskId)
    requires Inv(s) && IsQueued(s, id) && s.concurrency >= 1
    ensures s.running > 0
  {
    if HasSleeper(s, id) {
      var r :| r in s.runs && s.runs[r].task == id && s.runs[r].at == Sleeping;
      assert r in s.runs.Keys;
    }
  }

  /** An idle queue is a finished one: every task is done, failed or cancelled, and nobody is left waiting. */
  lemma IdleIsFinished(s: State)
    requires Inv(s) && !Busy(s)
    ensures s.waiters == []
    ensures forall id :: id in s.tasks ==> IsTerminal(s.tasks[id].status)
  {
    forall id | id in s.tasks
      ensures IsTerminal(s.tasks[id].status)
    {
      assert TaskOk(s, id);
      NoneQueued(s, id);
      HasRunMeansRunning(s, id);
    }
  }

  lemma HasRunMeansRunning(s: State, id: TaskId)
    requires Ledger(s)
    ensures HasRun(s, id) ==> s.running > 0
  {
    if HasRun(s, id) {
      var r :| r in s.runs && s.runs[r].task == id;
      assert r in s.runs.Keys;
    }
  }

  /** Waiters are resolved only in a state where nothing is queued or running. */
  lemma {:induction false} PumpResolvesWhenIdle(s: State)
    ensures Pump(s).resolved != s.resolved ==> !Busy(Pump(s))
    decreases |QueuedSet(s)|
  {
    hide Reverse;
    var next := FirstQueued(s, s.order);
    if s.running < s.concurrency && next.Some? {
      FirstQueuedIsQueued(s, s.order);
      var id := next.value;
      if s.tasks[id].attempts + 1 <= s.maxAttempts {
        var s1 := Launch(s, id, s.tasks[id].attempts + 1);
        HashingLeavesQueue(s, s1, id);
        PumpResolvesWhenIdle(s1);
      } else {
        var s1 := Skip(s, id);
        HashingLeavesQueue(s, s1, id);
        PumpResolvesWhenIdle(s1);
        var s2 := Pump(s1);
        SettledStaysIdle(s2);
        assert QueuedSet(SettleIdle(s2)) == QueuedSet(s2);
        PumpResolvesWhenIdle(SettleIdle(s2));
      }
    }
  }

  lemma SettledStaysIdle(s: State)
    ensures !Busy(s) ==> !Busy(SettleIdle(s)) && Pump(SettleIdle(s)) == SettleIdle(s)
    ensures Busy(s) ==> SettleIdle(s) == s
  {
    SearchSameTasks(s, SettleIdle(s), s.order);
  }

  lemma FinishResolvesWhenIdle(s: State, r: RunId)
    ensures Finish(s, r).resolved != s.resolved ==> !Busy(Finish(s, r))
  {
    if r in s.runs {
      PumpResolvesWhenIdle(Removed(s, r));
      SettledStaysIdle(Pump(Removed(s, r)));
    }
  }

  /** In every interleaving, the moment an `idle()` promise resolves every task has reached its end. */
  lemma IdleIsHonest(s: State, e: Event)
    requires Inv(s) && Step(s, e).resolved != s.resolved
    ensures !Busy(Step(s, e))
    ensures forall id :: id in Step(s, e).tasks ==> IsTerminal(Step(s, e).tasks[id].status)
  {
    StepKeepsInv(s, e);
    ResolvesWhenIdle(s, e);
    hide Inv, Step;
    IdleIsFinished(Step(s, e));
  }

  lemma ResolvesWhenIdle(s: State, e: Event)
    ensures Step(s, e).resolved != s.resolved ==> !Busy(Step(s, e))
  {
    hide Pump, Finish;
    match e
    case Add(file) =>
      var id := |s.order|;
      PumpResolvesWhenIdle(s.(order := s.order + [id], files := s.files[id := file],
                              tasks := s.tasks[id := Task(if file.rejected then Failed else Queued, 0)]));
    case Cancel(id) =>
      if id in s.tasks {
        var s1 := if id in s.controllers then s.(aborted := s.aborted + {s.controllers[id]}) else s;
        SettledStaysIdle(WithStatus(s1, id, Cancelled));
      }
    case Retry(id) => if id in s.tasks { PumpResolvesWhenIdle(s.(tasks := s.tasks[id := Task(Queued, 0)])); }
    case Idle => SearchSameTasks(s, AwaitIdle(s), s.order);
    case Settle(r, with) => ContinueResolvesWhenIdle(s, r, with);
  }

  lemma ContinueResolvesWhenIdle(s: State, r: RunId, with: Settlement)
    ensures Continue(s, r, with).resolved != s.resolved ==> !Busy(Continue(s, r, with))
  {
    hide Continue, Finish, Busy, WithStatus;
    if r in s.runs {
      var t := s.runs[r].task;
      ContinueEnds(s, r, with);
      StatusResolvesNone(s, t, Done);
      StatusResolvesNone(s, t, Failed);
      StatusResolvesNone(s, t, Cancelled);
      FinishResolvesWhenIdle(s, r);
      FinishResolvesWhenIdle(WithStatus(s, t, Done), r);
      FinishResolvesWhenIdle(WithStatus(s, t, Failed), r);
      FinishResolvesWhenIdle(WithStatus(s, t, Cancelled), r);
    } else {
      NoSuchRun(s, r, with);
    }
  }

  /** A run goes on without touching the resolved waiters, or comes to one of its ends. */
  ghost predicate GoesOnOrEnds(s: State, r: RunId, s': State)
    requires r in s.runs
  {
    var t := s.runs[r].task;
    || s'.resolved == s.resolved
    || s' == Finish(s, r)
    || s' == Finish(WithStatus(s, t, Done), r)
    || s' == Finish(WithStatus(s, t, Failed), r)
    || s' == Finish(WithStatus(s, t, Cancelled), r)
  }

  lemma CatchEnds(s: State, r: RunId)
    requires r in s.runs
    ensures GoesOnOrEnds(s, r, Catch(s, r))
  {
    hide Finish;
  }

  lemma ChunkEnds(s: State, r: RunId, left: nat)
    requires r in s.runs
    ensures GoesOnOrEnds(s, r, NextChunk(s, r, left))
  {
    hide Finish, Catch;
    CatchEnds(s, r);
  }

  lemma WakeEnds(s: State, r: RunId)
    requires r in s.runs
    ensures GoesOnOrEnds(s, r, NextAttempt(s, r))
  {
    hide Finish;
  }

  lemma StatusResolvesNone(s: State, t: TaskId, status: Status)
    ensures WithStatus(s, t, status).resolved == s.resolved
  {
  }

  lemma ContinueEnds(s: State, r: RunId, with: Settlement)
    requires r in s.runs
    ensures GoesOnOrEnds(s, r, Continue(s, r, with))
  {
    hide Finish, Catch, NextChunk, NextAttempt, Chunks;
    match (s.runs[r].at, with)
    case (Presigning, Single) => ChunkEnds(s, r, Chunks(s, s.runs[r].task));
    case (Reading(left), Fulfilled) => ChunkEnds(s, r, left);
    case (Sleeping, Fulfilled) => WakeEnds(s, r);
    case (_, Rejected) => CatchEnds(s, r);
    case _ =>
  }

  // ---------------------------------------------------------------- when a cancel is final

  /** The only runs that cannot bring a cancelled task back: aborted, and with another chunk still to check. */
  ghost predicate Doomed(s: State, r: RunId) {
    r in s.runs && r in s.aborted && s.runs[r].at.Reading? && s.runs[r].at.left > 0
  }

  ghost predicate CancelledForGood(s: State, t: TaskId) {
    && t in s.tasks && s.tasks[t].status == Cancelled
    && forall r {:trigger Doomed(s, r)} {:trigger s.runs[r]} :: r in s.runs && s.runs[r].task == t ==> Doomed(s, r)
  }

  lemma PumpedKeepsCancelled(s: State, s': State, t: TaskId)
    requires CancelledForGood(s, t) && Pumped(s, s')
    ensures CancelledForGood(s', t)
  {
    forall r | r in s'.runs && s'.runs[r].task == t
      ensures Doomed(s', r)
    {
      assert r in s.runs;
      assert Doomed(s, r);
    }
  }

  lemma TouchedKeepsCancelled(s: State, s': State, t: TaskId, u: TaskId)
    requires CancelledForGood(s, t) && u != t && TouchesOnly(s, s', u) && s.aborted <= s'.aborted
    requires forall r :: r in s'.runs && s'.runs[r].task != u ==> r in s.runs && s'.runs[r] == s.runs[r]
    ensures CancelledForGood(s', t)
  {
    forall r | r in s'.runs && s'.runs[r].task == t
      ensures Doomed(s', r)
    {
      assert Doomed(s, r);
    }
  }

  lemma RemovedKeepsCancelled(s: State, r: RunId, t: TaskId)
    requires CancelledForGood(s, t) && r in s.runs
    ensures CancelledForGood(Removed(s, r), t)
  {
    forall q | q in Removed(s, r).runs && Removed(s, r).runs[q].task == t
      ensures Doomed(Removed(s, r), q)
    {
      assert Doomed(s, q);
    }
  }

  lemma EndKeepsCancelled(s: State, r: RunId, status: Status, t: TaskId)
    requires Inv(s) && r in s.runs && IsTerminal(status) && CancelledForGood(s, t)
    requires s.runs[r].task != t || status == Cancelled
    ensures CancelledForGood(Finish(WithStatus(s, s.runs[r].task, status), r), t)
  {
    hide Inv, Pumped, Finish, CancelledForGood;
    var u := s.runs[r].task;
    var s1 := WithStatus(s, u, status);
    EndKeepsInv(s, r, status);
    StatusKeepsCancelled(s, u, status, t);
    RemovedKeepsCancelled(s1, r, t);
    PumpedKeepsCancelled(Removed(s1, r), Finish(s1, r), t);
  }

  lemma StatusKeepsCancelled(s: State, u: TaskId, status: Status, t: TaskId)
    requires CancelledForGood(s, t) && (u != t || status == Cancelled)
    ensures CancelledForGood(WithStatus(s, u, status), t)
  {
    forall r | r in s.runs && s.runs[r].task == t
      ensures Doomed(WithStatus(s, u, status), r)
    {
      assert Doomed(s, r);
    }
  }

  lemma CatchKeepsCancelled(s: State, r: RunId, t: TaskId)
    requires Inv(s) && r in s.runs && CancelledForGood(s, t)
    ensures CancelledForGood(Catch(s, r), t)
  {
    hide Inv, Finish;
    var u := s.runs[r].task;
    if u == t { assert Doomed(s, r); }
    if r in s.aborted {
      EndKeepsCancelled(s, r, Cancelled, t);
    } else if s.runs[r].attempt >= s.maxAttempts {
      EndKeepsCancelled(s, r, Failed, t);
    } else {
      TouchedKeepsCancelled(s, Catch(s, r), t, u);
    }
  }

  lemma ContinueKeepsCancelled(s: State, r: RunId, with: Settlement, t: TaskId)
    requires Inv(s) && CancelledForGood(s, t) && r in s.runs
    ensures CancelledForGood(Continue(s, r, with), t)
  {
    hide Inv, Finish, Catch;
    var run := s.runs[r];
    var u := run.task;
    if u == t {
      assert Doomed(s, r);
      hide CancelledForGood;
      if with == Fulfilled || with == Rejected { CatchKeepsCancelled(s, r, t); }
    } else {
      match (run.at, with) {
        case (Presigning, Existing) => EndKeepsCancelled(s, r, Done, t);
        case (Presigning, Single) => ChunkKeepsCancelled(s, r, Chunks(s, u), t);
        case (Reading(left), Fulfilled) => ChunkKeepsCancelled(s, r, left, t);
        case (Putting, Fulfilled) => TouchedKeepsCancelled(s, At(WithStatus(s, u, Completing), r, Finishing), t, u);
        case (Finishing, Ready) => EndKeepsCancelled(s, r, Done, t);
        case (Finishing, Refused) => EndKeepsCancelled(s, r, Failed, t);
        case (Sleeping, Fulfilled) =>
          WakeKeepsInv(s, r);
          RunHasTask(s, r);
          TouchedKeepsCancelled(s, NextAttempt(s, r), t, u);
        case (Sleeping, _) =>
        case (_, Rejected) => CatchKeepsCancelled(s, r, t);
        case _ =>
      }
    }
  }

  lemma RunHasTask(s: State, r: RunId)
    requires Inv(s) && r in s.runs
    ensures s.runs[r].task in s.tasks
  {
    assert RunOk(s, s.runs[r]);
  }

  lemma ChunkKeepsCancelled(s: State, r: RunId, left: nat, t: TaskId)
    requires Inv(s) && CancelledForGood(s, t) && r in s.runs && s.runs[r].task != t
    ensures CancelledForGood(NextChunk(s, r, left), t)
  {
    var u := s.runs[r].task;
    if left == 0 {
      TouchedKeepsCancelled(s, At(WithStatus(s, u, Uploading), r, Putting), t, u);
    } else if r in s.aborted {
      hide CancelledForGood;
      CatchKeepsCancelled(s, r, t);
    } else {
      TouchedKeepsCancelled(s, At(s, r, Reading(left - 1)), t, u);
    }
  }

  lemma AddKeepsCancelled(s: State, file: File, t: TaskId)
    requires Inv(s) && CancelledForGood(s, t)
    ensures CancelledForGood(AddFile(s, file), t)
  {
    var id := |s.order|;
    var s' := s.(order := s.order + [id], files := s.files[id := file],
                 tasks := s.tasks[id := Task(if file.rejected then Failed else Queued, 0)]);
    assert id !in s.tasks;
    AddKeepsCore(s, file, s');
    hide Inv, Core;
    forall r | r in s'.runs && s'.runs[r].task == t
      ensures Doomed(s', r)
    {
      assert Doomed(s, r);
    }
    if !file.rejected {
      assert CancelledForGood(s', t);
      hide CancelledForGood, Pumped;
      PumpKeeps(s');
      PumpedKeepsCancelled(s', Pump(s'), t);
    }
  }

  lemma CancelKeepsCancelled(s: State, id: TaskId, t: TaskId)
    requires CancelledForGood(s, t)
    ensures CancelledForGood(CancelTask(s, id), t)
  {
    var s' := CancelTask(s, id);
    CancelTouches(s, id);
    hide CancelTask;
    forall r | r in s'.runs && s'.runs[r].task == t
      ensures Doomed(s', r)
    {
      assert Doomed(s, r);
    }
  }

  /** A cancel stops nothing: runs go on, some of them aborted, and only the one task shows as cancelled. */
  lemma CancelTouches(s: State, id: TaskId)
    ensures var s' := CancelTask(s, id);
      && s'.runs == s.runs && s.aborted <= s'.aborted
      && s'.tasks == if id in s.tasks && s.tasks[id].status != Done then s.tasks[id := s.tasks[id].(status := Cancelled)] else s.tasks
  {
    hide Busy, Reverse;
  }

  lemma RetryKeepsCancelled(s: State, id: TaskId, t: TaskId)
    requires Inv(s) && CancelledForGood(s, t) && id != t
    ensures CancelledForGood(RetryTask(s, id), t)
  {
    if id in s.tasks && (s.tasks[id].status == Failed || s.tasks[id].status == Cancelled) && id in s.files {
      if s.files[id].rejected {
        TouchedKeepsCancelled(s, WithStatus(s, id, Failed), t, id);
      } else {
        var s' := s.(tasks := s.tasks[id := Task(Queued, 0)]);
        RetaskKeepsLedger(s, id, Task(Queued, 0));
        TouchKeepsTasks(s, s', id);
        TouchedKeepsCancelled(s, s', t, id);
        hide CancelledForGood, Core, Pumped;
        PumpKeeps(s');
        PumpedKeepsCancelled(s', Pump(s'), t);
      }
    }
  }

  lemma StepKeepsCancelled(s: State, e: Event, t: TaskId)
    requires Inv(s) && CancelledForGood(s, t) && e != Retry(t)
    ensures CancelledForGood(Step(s, e), t)
  {
    hide Inv, AddFile, CancelTask, RetryTask, Continue, CancelledForGood;
    match e
    case Add(file) => AddKeepsCancelled(s, file, t);
    case Cancel(id) => CancelKeepsCancelled(s, id, t);
    case Retry(id) => RetryKeepsCancelled(s, id, t);
    case Idle => IdleKeepsCancelled(s, t);
    case Settle(r, with) =>
      if r in s.runs { ContinueKeepsCancelled(s, r, with, t); }
      else { assert Continue(s, r, with) == s by { NoSuchRun(s, r, with); } }
  }

  lemma NoSuchRun(s: State, r: RunId, with: Settlement)
    requires r !in s.runs
    ensures Continue(s, r, with) == s
  {
  }

  lemma IdleKeepsCancelled(s: State, t: TaskId)
    requires CancelledForGood(s, t)
    ensures CancelledForGood(AwaitIdle(s), t)
  {
    forall r | r in s.runs && s.runs[r].task == t
      ensures Doomed(AwaitIdle(s), r)
    {
      assert Doomed(s, r);
    }
  }

  ghost predicate NoRetry(events: seq<Event>, t: TaskId) {
    forall i :: 0 <= i < |events| ==> events[i] != Retry(t)
  }

  lemma {:induction false} TraceKeepsCancelled(s: State, events: seq<Event>, t: TaskId)
    requires Inv(s) && CancelledForGood(s, t) && NoRetry(events, t)
    ensures Inv(Trace(s, events)) && CancelledForGood(Trace(s, events), t)
    decreases |events|
  {
    hide Inv, CancelledForGood, Step;
    if events != [] {
      var front, e := events[..|events| - 1], events[|events| - 1];
      TraceKeepsCancelled(s, front, t);
      StepKeepsInv(Trace(s, front), e);
      StepKeepsCancelled(Trace(s, front), e, t);
    }
  }

  /** What a run that is not doomed can still do to a cancelled task. */
  lemma {:induction false} RunRevives(s: State, r: RunId, t: TaskId) returns (events: seq<Event>)
    requires Inv(s) && r in s.runs && s.runs[r].task == t && t in s.tasks && !Doomed(s, r)
    ensures NoRetry(events, t) && t in Trace(s, events).tasks && Trace(s, events).tasks[t].status != Cancelled
    decreases if s.runs[r].at.Reading? then s.runs[r].at.left else 0
  {
    hide Inv, Finish, Catch;
    match s.runs[r].at
    case Presigning =>
      events := [Settle(r, Existing)];
      EndedStatus(s, r, Done);
      OneStep(s, events[0]);
    case Reading(left) =>
      var s' := Continue(s, r, Fulfilled);
      if left == 0 {
        events := [Settle(r, Fulfilled)];
        OneStep(s, events[0]);
      } else {
        ContinueKeepsInv(s, r, Fulfilled);
        var rest := RunRevives(s', r, t);
        events := [Settle(r, Fulfilled)] + rest;
        TraceCons(s, Settle(r, Fulfilled), rest);
      }
    case Putting =>
      events := [Settle(r, Fulfilled)];
      OneStep(s, events[0]);
    case Finishing =>
      events := [Settle(r, Ready)];
      EndedStatus(s, r, Done);
      OneStep(s, events[0]);
    case Sleeping =>
      events := [Settle(r, Fulfilled)];
      WakeKeepsInv(s, r);
      OneStep(s, events[0]);
  }

  lemma EndedStatus(s: State, r: RunId, status: Status)
    requires Inv(s) && r in s.runs && IsTerminal(status) && s.runs[r].task in s.tasks
    ensures var s' := Finish(WithStatus(s, s.runs[r].task, status), r);
      s.runs[r].task in s'.tasks && s'.tasks[s.runs[r].task].status == status
  {
    EndKeepsInv(s, r, status);
    hide Inv, Finish;
    var s1 := Removed(WithStatus(s, s.runs[r].task, status), r);
    assert !IsQueued(s1, s.runs[r].task);
  }

  // ---------------------------------------------------------------- how a status is reached

  /** Nothing changes but that queued tasks may have been picked up. */
  ghost predicate PickedUp(s: State, s': State) {
    forall id :: id in s.tasks ==>
      id in s'.tasks &&
      (s'.tasks[id].status == s.tasks[id].status || (IsQueued(s, id) && s'.tasks[id].status == Hashing))
  }

  lemma PickedUpTwice(a: State, b: State, c: State)
    requires PickedUp(a, b) && PickedUp(b, c)
    ensures PickedUp(a, c)
  {
  }

  lemma LaunchPicksUp(s: State, id: TaskId)
    requires IsQueued(s, id)
    ensures PickedUp(s, Launch(s, id, s.tasks[id].attempts + 1)) && PickedUp(s, Skip(s, id))
    ensures |QueuedSet(Launch(s, id, s.tasks[id].attempts + 1))| < |QueuedSet(s)|
    ensures |QueuedSet(Skip(s, id))| < |QueuedSet(s)|
  {
    HashingLeavesQueue(s, Launch(s, id, s.tasks[id].attempts + 1), id);
    HashingLeavesQueue(s, Skip(s, id), id);
    hide QueuedSet;
  }

  lemma SettlePicksUp(s: State)
    ensures PickedUp(s, SettleIdle(s)) && QueuedSet(SettleIdle(s)) == QueuedSet(s)
  {
  }

  lemma {:induction false} PumpPicksUp(s: State)
    ensures PickedUp(s, Pump(s))
    decreases |QueuedSet(s)|
  {
    hide *;
    var next := FirstQueued(s, s.order);
    PumpStops(s);
    if s.running < s.concurrency && next.Some? {
      FirstQueuedIsQueued(s, s.order);
      QueuedIsKnown(s, next.value);
      var id := next.value;
      var attempt := s.tasks[id].attempts + 1;
      PumpUnfolds(s, id);
      LaunchPicksUp(s, id);
      LaunchQueue(s, id, attempt);
      SkipQueue(s, id);
      if attempt <= s.maxAttempts {
        PumpPicksUp(Launch(s, id, attempt));
        PickedUpTwice(s, Launch(s, id, attempt), Pump(s));
      } else {
        var s1 := Pump(Skip(s, id));
        PumpPicksUp(Skip(s, id));
        SettlePicksUp(s1);
        SettledQueue(s1);
        PumpPicksUp(SettleIdle(s1));
        PickedUpTwice(s, Skip(s, id), s1);
        PickedUpTwice(s, s1, SettleIdle(s1));
        PickedUpTwice(s, SettleIdle(s1), Pump(s));
      }
    } else {
      NothingPickedUp(s);
    }
  }

  lemma NothingPickedUp(s: State)
    ensures PickedUp(s, s)
  {
  }

  lemma QueuedIsKnown(s: State, id: TaskId)
    requires IsQueued(s, id)
    ensures id in s.tasks
  {
  }

  lemma PumpStops(s: State)
    ensures s.running >= s.concurrency || FirstQueued(s, s.order).None? ==> Pump(s) == s
  {
    hide FirstQueued;
  }

  lemma FinishPicksUp(s: State, r: RunId)
    ensures PickedUp(s, Finish(s, r))
  {
    if r in s.runs {
      var id := s.runs[r].task;
      PumpPicksUp(s.(controllers := s.controllers - {id}, runs := s.runs - {r}, running := s.running - 1));
      hide Pump;
    }
  }

  /** The event settles what a run of this task is waiting for. */
  ghost predicate SettlesRunOf(s: State, e: Event, t: TaskId) {
    e.Settle? && e.run in s.runs && s.runs[e.run].task == t
  }

  /** What may happen to the status of a task in one step: it is picked up, or the event is about the task. */
  ghost predicate Earned(s: State, e: Event, t: TaskId, before: Status, after: Status) {
    || after == before
    || (before == Queued && after == Hashing)
    || (e == Cancel(t) && before != Done && after == Cancelled)
    || (e == Retry(t) && (before == Failed || before == Cancelled) && after in {Queued, Hashing, Failed})
    || (SettlesRunOf(s, e, t) && EarnedBy(s, s.runs[e.run], e.run in s.aborted, e.with, after))
  }

  /** What a settlement may make of the task of the run that waited for it. */
  ghost predicate EarnedBy(s: State, run: Run, aborted: bool, with: Settlement, after: Status) {
    match after
    case Hashing => run.at == Sleeping && with == Fulfilled && run.attempt < s.maxAttempts
    case Uploading => with == Single || with == Fulfilled
    case Completing => run.at == Putting && with == Fulfilled
    case Done => (run.at == Presigning && with == Existing) || (run.at == Finishing && with == Ready)
    case Cancelled => aborted
    case Failed =>
      (run.at == Finishing && with == Refused) || (with == Rejected && !aborted && run.attempt >= s.maxAttempts)
    case Queued => with == Rejected && !aborted && run.attempt < s.maxAttempts
  }

  lemma FinishedStatus(s: State, r: RunId, status: Status, t: TaskId)
    requires r in s.runs && t in s.tasks && IsTerminal(status)
    ensures var u, s' := s.runs[r].task, Finish(WithStatus(s, s.runs[r].task, status), r);
      && t in s'.tasks
      && (t == u ==> s'.tasks[t].status == status)
      && (t != u ==> s'.tasks[t].status == s.tasks[t].status || (IsQueued(s, t) && s'.tasks[t].status == Hashing))
  {
    FinishPicksUp(WithStatus(s, s.runs[r].task, status), r);
    hide Finish;
  }

  lemma CatchEarns(s: State, r: RunId, t: TaskId)
    requires r in s.runs && t in s.tasks
    ensures t in Catch(s, r).tasks
    ensures Earned(s, Settle(r, Rejected), t, s.tasks[t].status, Catch(s, r).tasks[t].status)
    ensures r in s.aborted ==> Earned(s, Settle(r, Fulfilled), t, s.tasks[t].status, Catch(s, r).tasks[t].status)
    ensures r in s.aborted ==> Earned(s, Settle(r, Single), t, s.tasks[t].status, Catch(s, r).tasks[t].status)
  {
    hide Finish;
    FinishedStatus(s, r, Cancelled, t);
    FinishedStatus(s, r, Failed, t);
  }

  lemma EndEarns(s: State, r: RunId, with: Settlement, status: Status, t: TaskId)
    requires r in s.runs && t in s.tasks && IsTerminal(status)
    requires EarnedBy(s, s.runs[r], r in s.aborted, with, status)
    ensures var s' := Finish(WithStatus(s, s.runs[r].task, status), r);
      t in s'.tasks && Earned(s, Settle(r, with), t, s.tasks[t].status, s'.tasks[t].status)
  {
    FinishedStatus(s, r, status, t);
    hide Finish, EarnedBy, WithStatus;
  }

  lemma ChunkEarns(s: State, r: RunId, left: nat, with: Settlement, t: TaskId)
    requires r in s.runs && t in s.tasks && (with == Single || with == Fulfilled)
    ensures var s' := NextChunk(s, r, left);
      t in s'.tasks && Earned(s, Settle(r, with), t, s.tasks[t].status, s'.tasks[t].status)
  {
    if left > 0 && r in s.aborted {
      CatchEarns(s, r, t);
      hide Earned;
    }
    hide Catch;
  }

  lemma MoveEarns(s: State, r: RunId, t: TaskId)
    requires r in s.runs && t in s.tasks && s.runs[r].at == Putting
    ensures var s' := At(WithStatus(s, s.runs[r].task, Completing), r, Finishing);
      t in s'.tasks && Earned(s, Settle(r, Fulfilled), t, s.tasks[t].status, s'.tasks[t].status)
  {
  }

  lemma WakeEarns(s: State, r: RunId, t: TaskId)
    requires r in s.runs && t in s.tasks && s.runs[r].at == Sleeping
    ensures var s' := NextAttempt(s, r);
      t in s'.tasks && Earned(s, Settle(r, Fulfilled), t, s.tasks[t].status, s'.tasks[t].status)
  {
    FinishPicksUp(s, r);
    hide Finish;
  }

  lemma ContinueEarns(s: State, r: RunId, with: Settlement, t: TaskId)
    requires r in s.runs && t in s.tasks
    ensures t in Continue(s, r, with).tasks
    ensures Earned(s, Settle(r, with), t, s.tasks[t].status, Continue(s, r, with).tasks[t].status)
  {
    hide Finish, Catch, NextChunk, NextAttempt, At, WithStatus;
    var run := s.runs[r];
    match (run.at, with) {
      case (Presigning, Existing) => EndEarns(s, r, with, Done, t); hide Earned;
      case (Presigning, Single) => hide Earned; ChunkEarns(s, r, Chunks(s, run.task), with, t);
      case (Reading(left), Fulfilled) => hide Earned; ChunkEarns(s, r, left, with, t);
      case (Putting, Fulfilled) => hide Earned; MoveEarns(s, r, t);
      case (Finishing, Ready) => EndEarns(s, r, with, Done, t); hide Earned;
      case (Finishing, Refused) => EndEarns(s, r, with, Failed, t); hide Earned;
      case (Sleeping, Fulfilled) => hide Earned; WakeEarns(s, r, t);
      case (Sleeping, _) =>
      case (_, Rejected) => hide Earned; CatchEarns(s, r, t);
      case _ =>
    }
  }

  /** In every step every status that changes is earned: a task is done only when the server has the file or says it is
    * ready, failed only when it is refused or its last attempt fails, cancelled only by a call or an aborted run.
    */
  lemma EveryStatusIsEarned(s: State, e: Event, t: TaskId)
    requires Inv(s) && t in s.tasks
    ensures t in Step(s, e).tasks
    ensures Earned(s, e, t, s.tasks[t].status, Step(s, e).tasks[t].status)
  {
    assert |s.order| !in s.tasks;
    hide Inv, AddFile, RetryTask, Continue;
    match e
    case Add(file) => AddEarns(s, file, t);
    case Cancel(id) =>
    case Retry(id) => RetryEarns(s, id, t);
    case Idle =>
    case Settle(r, with) => if r in s.runs { ContinueEarns(s, r, with, t); } else { NoSuchRun(s, r, with); }
  }

  lemma AddEarns(s: State, file: File, t: TaskId)
    requires t in s.tasks && |s.order| !in s.tasks
    ensures t in AddFile(s, file).tasks
    ensures Earned(s, Add(file), t, s.tasks[t].status, AddFile(s, file).tasks[t].status)
  {
    var id := |s.order|;
    PumpPicksUp(s.(order := s.order + [id], files := s.files[id := file],
                   tasks := s.tasks[id := Task(if file.rejected then Failed else Queued, 0)]));
    hide Pump;
  }

  lemma RetryEarns(s: State, id: TaskId, t: TaskId)
    requires t in s.tasks
    ensures t in RetryTask(s, id).tasks
    ensures Earned(s, Retry(id), t, s.tasks[t].status, RetryTask(s, id).tasks[t].status)
  {
    PumpPicksUp(s.(tasks := s.tasks[id := Task(Queued, 0)]));
    hide Pump;
  }

  lemma OneStep(s: State, e: Event)
    ensures Trace(s, [e]) == Step(s, e)
  {
    assert [e][..0] == [];
  }

  lemma {:induction false} TraceCons(s: State, e: Event, rest: seq<Event>)
    ensures Trace(s, [e] + rest) == Trace(Step(s, e), rest)
    decreases |rest|
  {
    hide Step;
    if rest == [] {
      assert [e] + rest == [e];
      OneStep(s, e);
    } else {
      var n := |rest|;
      TraceCons(s, e, rest[..n - 1]);
      assert ([e] + rest)[..n] == [e] + rest[..n - 1];
    }
  }

  /** A cancelled task stays cancelled, whatever happens short of a retry of it, exactly when every live run of
    * it has been aborted in the middle of its file.
    */
  lemma CancelIsFinalExactlyWhen(s: State, t: TaskId)
    requires Inv(s) && t in s.tasks && s.tasks[t].status == Cancelled
    ensures CancelledForGood(s, t) <==>
      forall events :: NoRetry(events, t) ==>
        t in Trace(s, events).tasks && Trace(s, events).tasks[t].status == Cancelled
  {
    hide Inv, Trace;
    if CancelledForGood(s, t) {
      forall events | NoRetry(events, t)
        ensures t in Trace(s, events).tasks && Trace(s, events).tasks[t].status == Cancelled
      {
        TraceKeepsCancelled(s, events, t);
      }
    } else {
      var r :| r in s.runs && s.runs[r].task == t && !Doomed(s, r);
      var events := RunRevives(s, r, t);
      assert NoRetry(events, t);
    }
  }

  // ---------------------------------------------------------------- createUploadQueue

  /** The closure's variables, and beside them the runs the event loop holds suspended. */
  class Queue {
    const concurrency: nat
    const maxAttempts: nat
    var order: seq<TaskId>
    var tasks: map<TaskId, Task>
    var files: map<TaskId, File>
    var controllers: map<TaskId, RunId>
    var running: int
    var idleWaiters: seq<nat>
    var runs: map<RunId, Run>
    var aborted: set<RunId>
    var nextRun: RunId
    var resolved: seq<nat>
    var nextWaiter: nat

    function Now(): State
      reads this
    {
      State(concurrency, maxAttempts, order, tasks, files, controllers, runs, aborted, running, nextRun,
            idleWaiters, resolved, nextWaiter)
    }

    constructor (concurrency: nat, maxAttempts: nat)
      ensures Now() == Initial(concurrency, maxAttempts)
    {
      this.concurrency, this.maxAttempts := concurrency, maxAttempts;
      order, tasks, files, controllers, running, idleWaiters := [], map[], map[], map[], 0, [];
      runs, aborted, nextRun, resolved, nextWaiter := map[], {}, 0, [], 0;
    }

    method Patch(id: TaskId, status: Status)
      modifies this
      ensures Now() == WithStatus(old(Now()), id, status)
    {
      if id !in tasks { return; }
      tasks := tasks[id := tasks[id].(status := status)];
    }

    method FindQueued() returns (next: Option<TaskId>)
      ensures next == FirstQueued(Now(), order)
    {
      for i := 0 to |order|
        invariant FirstQueued(Now(), order) == FirstQueued(Now(), order[i..])
      {
        if order[i] in tasks && tasks[order[i]].status == Queued { return Some(order[i]); }
        assert order[i..][1..] == order[i + 1..];
      }
      next := None;
    }

    method SettleWaiters()
      modifies this
      ensures Now() == SettleIdle(old(Now()))
    {
      var queued := FindQueued();
      if running > 0 || queued.Some? { return; }
      while |idleWaiters| > 0
        invariant resolved + Reverse(idleWaiters) == old(resolved) + Reverse(old(idleWaiters))
        invariant Now() == old(Now()).(resolved := resolved, waiters := idleWaiters)
      {
        var w := idleWaiters[|idleWaiters| - 1];
        assert resolved + Reverse(idleWaiters) == (resolved + [w]) + Reverse(idleWaiters[..|idleWaiters| - 1]);
        resolved := resolved + [w];
        idleWaiters := idleWaiters[..|idleWaiters| - 1];
      }
    }

    /** `pump`, whose calls of `run` may fall straight through to `finally` and pump again. */
    method PumpQueue()
      modifies this
      ensures Now() == Pump(old(Now()))
      decreases |QueuedSet(Now())|, 0
    {
      hide SettleIdle, Launch, Skip, QueuedSet, FirstQueued;
      while running < concurrency
        invariant Pump(Now()) == Pump(old(Now()))
        invariant |QueuedSet(Now())| <= |QueuedSet(old(Now()))|
        decreases |QueuedSet(Now())|
      {
        var next := FindQueued();
        if next.None? { return; }
        ghost var before := Now();
        FirstQueuedIsQueued(before, order);
        PatchHashing(before, next.value);
        Patch(next.value, Hashing);
        StartRun(next.value, before);
      }
    }

    /** `run` up to its first await; with the attempts used up, its `finally` follows at once. */
    method StartRun(id: TaskId, ghost before: State)
      requires Now() == WithStatus(before, id, Hashing) && IsQueued(before, id)
      requires before.running < before.concurrency && FirstQueued(before, before.order) == Some(id)
      modifies this
      ensures Now() ==
        if before.tasks[id].attempts + 1 <= before.maxAttempts then Launch(before, id, before.tasks[id].attempts + 1)
        else SettleIdle(Pump(Skip(before, id)))
      ensures Pump(Now()) == Pump(before)
      ensures |QueuedSet(Now())| < |QueuedSet(before)|
      decreases |QueuedSet(Now())|, 2
    {
      hide Pump, SettleIdle, FirstQueued, QueuedSet, IsQueued, Launch, Skip, WithStatus;
      StartsHashing(before, id);
      PumpUnfolds(before, id);
      LaunchQueue(before, id, tasks[id].attempts + 1);
      SkipQueue(before, id);
      var attempt := tasks[id].attempts + 1;
      if attempt <= maxAttempts {
        Begin(id, attempt, before);
      } else {
        GiveUp(id, before);
        SettledQueue(Pump(Skip(before, id)));
      }
    }

    /** The run registers its controller, takes a slot, and asks for the upload address. */
    method Begin(id: TaskId, attempt: nat, ghost before: State)
      requires id in before.tasks && Now() == WithStatus(before, id, Hashing)
      modifies this
      ensures Now() == Launch(before, id, attempt)
    {
      controllers := controllers[id := nextRun];
      running := running + 1;
      tasks := tasks[id := Task(Hashing, attempt)];
      runs := runs[nextRun := Run(id, attempt, Presigning)];
      nextRun := nextRun + 1;
    }

    /** No attempt is left, so the loop of attempts is empty and `finally` comes at once. */
    method GiveUp(id: TaskId, ghost before: State)
      requires Now() == WithStatus(before, id, Hashing) && IsQueued(before, id)
      modifies this
      ensures Now() == SettleIdle(Pump(Skip(before, id)))
      decreases |QueuedSet(Now())|, 1
    {
      hide Pump, SettleIdle, QueuedSet, IsQueued;
      SkipQueue(before, id);
      nextRun := nextRun + 1;
      controllers := controllers - {id};
      assert Now() == Skip(before, id);
      PumpQueue();
      SettleWaiters();
    }

    /** `finally`: give up the slot, let others in, and see whether the queue is idle. */
    method Finally(r: RunId)
      requires r in runs
      modifies this
      ensures Now() == Finish(old(Now()), r)
    {
      hide Pump, SettleIdle;
      controllers := controllers - {runs[r].task};
      runs := runs - {r};
      running := running - 1;
      PumpQueue();
      SettleWaiters();
    }

    method Suspend(r: RunId, at: Await)
      modifies this
      ensures Now() == At(old(Now()), r, at)
    {
      if r in runs { runs := runs[r := runs[r].(at := at)]; }
    }

    method OnError(r: RunId)
      requires r in runs
      modifies this
      ensures Now() == Catch(old(Now()), r)
    {
      var run := runs[r];
      if r in aborted {
        Patch(run.task, Cancelled);
        Finally(r);
      } else if run.attempt >= maxAttempts {
        Patch(run.task, Failed);
        Finally(r);
      } else {
        Patch(run.task, Queued);
        Suspend(r, Sleeping);
      }
    }

    method Transfer(r: RunId, left: nat)
      requires r in runs
      modifies this
      ensures Now() == NextChunk(old(Now()), r, left)
    {
      if left == 0 {
        Patch(runs[r].task, Uploading);
        Suspend(r, Putting);
      } else if r in aborted {
        OnError(r);
      } else {
        Suspend(r, Reading(left - 1));
      }
    }

    method WakeUp(r: RunId)
      requires r in runs
      modifies this
      ensures Now() == NextAttempt(old(Now()), r)
    {
      hide Finish;
      var run := runs[r];
      if run.attempt + 1 <= maxAttempts {
        tasks := tasks[run.task := Task(Hashing, run.attempt + 1)];
        runs := runs[r := Run(run.task, run.attempt + 1, Presigning)];
      } else {
        Finally(r);
      }
    }

    method Resume(r: RunId, with: Settlement)
      modifies this
      ensures Now() == Step(old(Now()), Settle(r, with))
    {
      hide Finish, Catch, NextChunk, At, NextAttempt, Chunks;
      if r !in runs { return; }
      var run := runs[r];
      match (run.at, with) {
        case (Presigning, Existing) => Patch(run.task, Done); Finally(r);
        case (Presigning, Single) => Transfer(r, Chunks(Now(), run.task));
        case (Reading(left), Fulfilled) => Transfer(r, left);
        case (Putting, Fulfilled) => Patch(run.task, Completing); Suspend(r, Finishing);
        case (Finishing, Ready) => Patch(run.task, Done); Finally(r);
        case (Finishing, Refused) => Patch(run.task, Failed); Finally(r);
        case (Sleeping, Fulfilled) => WakeUp(r);
        case (Sleeping, _) =>
        case (_, Rejected) => OnError(r);
        case _ =>
      }
    }

    method AddFile(file: File) returns (id: TaskId)
      modifies this
      ensures Now() == Step(old(Now()), Event.Add(file)) && id == |old(order)|
    {
      id := |order|;
      order := order + [id];
      files := files[id := file];
      tasks := tasks[id := Task(if file.rejected then Failed else Queued, 0)];
      if !file.rejected { PumpQueue(); }
    }

    method CancelTask(id: TaskId)
      modifies this
      ensures Now() == Step(old(Now()), Event.Cancel(id))
    {
      if id !in tasks || tasks[id].status == Done { return; }
      if id in controllers { aborted := aborted + {controllers[id]}; }
      Patch(id, Cancelled);
      SettleWaiters();
    }

    method RetryTask(id: TaskId)
      modifies this
      ensures Now() == Step(old(Now()), Event.Retry(id))
    {
      if id !in tasks || (tasks[id].status != Failed && tasks[id].status != Cancelled) { return; }
      if id !in files { return; }
      if files[id].rejected {
        Patch(id, Failed);
        return;
      }
      tasks := tasks[id := Task(Queued, 0)];
      PumpQueue();
    }

    method WaitIdle()
      modifies this
      ensures Now() == Step(old(Now()), Event.Idle)
    {
      var queued := FindQueued();
      if running == 0 && queued.None? { resolved := resolved + [nextWaiter]; }
      else { idleWaiters := idleWaiters + [nextWaiter]; }
      nextWaiter := nextWaiter + 1;
    }
  }

  lemma StartsHashing(s: State, id: TaskId)
    requires IsQueued(s, id)
    ensures id in s.tasks && id in WithStatus(s, id, Hashing).tasks
    ensures WithStatus(s, id, Hashing).tasks[id].attempts == s.tasks[id].attempts
    ensures WithStatus(s, id, Hashing).maxAttempts == s.maxAttempts
  {
  }

  /** One turn of the pump loop. */
  lemma PumpUnfolds(s: State, id: TaskId)
    requires s.running < s.concurrency && FirstQueued(s, s.order) == Some(id) && IsQueued(s, id)
    ensures Pump(s) ==
      if s.tasks[id].attempts + 1 <= s.maxAttempts then Pump(Launch(s, id, s.tasks[id].attempts + 1))
      else Pump(SettleIdle(Pump(Skip(s, id))))
  {
  }

  lemma LaunchQueue(s: State, id: TaskId, attempt: nat)
    requires IsQueued(s, id)
    ensures |QueuedSet(Launch(s, id, attempt))| < |QueuedSet(s)|
  {
    HashingLeavesQueue(s, Launch(s, id, attempt), id);
  }

  lemma SkipQueue(s: State, id: TaskId)
    requires IsQueued(s, id)
    ensures QueuedSet(Skip(s, id)) == QueuedSet(WithStatus(s, id, Hashing))
    ensures |QueuedSet(Skip(s, id))| < |QueuedSet(s)|
  {
    HashingLeavesQueue(s, Skip(s, id), id);
  }

  lemma PatchHashing(s: State, id: TaskId)
    requires IsQueued(s, id)
    ensures |QueuedSet(WithStatus(s, id, Hashing))| < |QueuedSet(s)|
  {
    HashingLeavesQueue(s, WithStatus(s, id, Hashing), id);
  }

  lemma SettledQueue(s: State)
    ensures QueuedSet(SettleIdle(s)) == QueuedSet(s)
  {
  }
}
