/** The upload queue comes to rest: every settlement of a live run uses up work, calls of the page bring a bounded
  * amount of it, and while the queue is busy there is a settlement left to come.
  */
module UploadDrain {
  import opened Options
  import opened UploadQueue

  // ---------------------------------------------------------------- settlements that can come

  /** What the promise behind each await can settle with; `sleep` only ever fulfils. */
  predicate Answers(at: Await, with: Settlement) {
    match at
    case Presigning => with == Existing || with == Single || with == Rejected
    case Reading(_) => with == Fulfilled || with == Rejected
    case Putting => with == Fulfilled || with == Rejected
    case Finishing => with == Ready || with == Refused || with == Rejected
    case Sleeping => with == Fulfilled
  }

  /** The event settles the promise that a live run waits for. */
  predicate Due(s: State, e: Event) {
    e.Settle? && e.run in s.runs && Answers(s.runs[e.run].at, e.with)
  }

  // ---------------------------------------------------------------- the work left

  function Sum(ws: seq<nat>): nat {
    if ws == [] then 0 else Sum(ws[..|ws| - 1]) + ws[|ws| - 1]
  }

  /** Settlements that a file of `n` chunks can take with `left` attempts. Each one is made by a run that wakes up for
    * it, or by another run that the pump starts while the first is asleep; so the rest of them may be made twice.
    */
  function Token(n: nat, left: nat): nat
    decreases left, 0
  {
    if left == 0 then 0 else 3 + n + Nap(n, left - 1) + Token(n, left - 1)
  }

  /** From falling asleep to the end. */
  function Nap(n: nat, left: nat): nat
    decreases left, 1
  {
    if left == 0 then 0 else 1 + Token(n, left)
  }

  function Weight(n: nat, left: nat, at: Await): nat {
    Nap(n, left) +
    match at
    case Presigning => 3 + n
    case Reading(chunks) => 3 + chunks
    case Putting => 2
    case Finishing => 1
    case Sleeping => 0
  }

  function Left(s: State, attempts: nat): nat {
    if attempts < s.maxAttempts then s.maxAttempts - attempts else 0
  }

  function RunWeight(s: State, r: RunId): nat {
    if r in s.runs then Weight(Chunks(s, s.runs[r].task), Left(s, s.runs[r].attempt), s.runs[r].at) else 0
  }

  function TaskWeight(s: State, id: TaskId): nat {
    if id in s.tasks then Token(Chunks(s, id), Left(s, s.tasks[id].attempts)) else 0
  }

  function RunWeights(s: State): (ws: seq<nat>)
    ensures |ws| == s.nextRun && forall r :: 0 <= r < s.nextRun ==> ws[r] == RunWeight(s, r)
  {
    seq(s.nextRun, r requires 0 <= r => RunWeight(s, r))
  }

  function TaskWeights(s: State): (ws: seq<nat>)
    ensures |ws| == |s.order| && forall id :: 0 <= id < |s.order| ==> ws[id] == TaskWeight(s, id)
  {
    seq(|s.order|, id requires 0 <= id => TaskWeight(s, id))
  }

  /** The settlements that can still come, whatever they are, if the page asks for nothing more. */
  function Work(s: State): nat {
    Sum(RunWeights(s)) + Sum(TaskWeights(s))
  }

  lemma {:induction false} SumUpdate(ws: seq<nat>, i: nat, w: nat)
    requires i < |ws|
    ensures Sum(ws[i := w]) + ws[i] == Sum(ws) + w
    decreases |ws|
  {
    var n := |ws| - 1;
    if i == n {
      assert ws[i := w][..n] == ws[..n];
    } else {
      SumUpdate(ws[..n], i, w);
      assert ws[i := w][..n] == ws[..n][i := w];
    }
  }

  lemma SumSnoc(ws: seq<nat>, w: nat)
    ensures Sum(ws + [w]) == Sum(ws) + w
  {
    assert (ws + [w])[..|ws|] == ws;
  }

  /** With one attempt left a file takes at most a presign, its chunks, a put and a completion; each further attempt
    * doubles it.
    */
  lemma {:induction false} TokenDoubles(n: nat, left: nat)
    ensures Token(n, 0) == 0 && Token(n, 1) == n + 3
    ensures left >= 1 ==> Token(n, left + 1) == 2 * Token(n, left) + n + 4
  {
    assert Token(n, 1) == 3 + n + Nap(n, 0) + Token(n, 0);
  }

  // ---------------------------------------------------------------- pumping makes no work and loses none

  lemma TaskIsListed(s: State, id: TaskId)
    requires Ledger(s) && id in s.tasks
    ensures id < |s.order|
  {
  }

  lemma LaunchWeights(s: State, id: TaskId)
    requires Ledger(s) && id in s.tasks && s.tasks[id].attempts < s.maxAttempts
    ensures var left := s.maxAttempts - s.tasks[id].attempts - 1;
      var s' := Launch(s, id, s.tasks[id].attempts + 1);
      && RunWeights(s') == RunWeights(s) + [Weight(Chunks(s, id), left, Presigning)]
      && TaskWeights(s') == TaskWeights(s)[id := Token(Chunks(s, id), left)]
  {
    hide Weight, Token;
    var s' := Launch(s, id, s.tasks[id].attempts + 1);
    assert forall r :: 0 <= r < s.nextRun ==> RunWeight(s', r) == RunWeight(s, r);
  }

  /** Starting a task takes out of its weight what the run weighs. */
  lemma LaunchIsPaid(s: State, id: TaskId)
    requires id in s.tasks && s.tasks[id].attempts < s.maxAttempts
    ensures var n, left := Chunks(s, id), s.maxAttempts - s.tasks[id].attempts - 1;
      TaskWeight(s, id) == Weight(n, left, Presigning) + Token(n, left)
  {
    hide Nap, Chunks;
  }

  lemma LaunchKeepsWork(s: State, id: TaskId)
    requires Ledger(s) && id in s.tasks && s.tasks[id].attempts < s.maxAttempts
    ensures Work(Launch(s, id, s.tasks[id].attempts + 1)) == Work(s)
  {
    hide Ledger, Launch, Weight, Token, Sum, RunWeights, TaskWeights, TaskWeight, Chunks;
    TaskIsListed(s, id);
    LaunchWeights(s, id);
    LaunchIsPaid(s, id);
    var n, left := Chunks(s, id), s.maxAttempts - s.tasks[id].attempts - 1;
    assert TaskWeights(s)[id] == TaskWeight(s, id);
    SumSnoc(RunWeights(s), Weight(n, left, Presigning));
    SumUpdate(TaskWeights(s), id, Token(n, left));
  }

  /** A run that was never suspended leaves nothing behind. */
  lemma NoRunNoWork(s: State, id: TaskId)
    requires s.nextRun !in s.runs
    ensures Work(s.(controllers := s.controllers - {id}, nextRun := s.nextRun + 1)) == Work(s)
  {
    hide Weight, Token, Sum;
    var s' := s.(controllers := s.controllers - {id}, nextRun := s.nextRun + 1);
    assert RunWeights(s') == RunWeights(s) + [0];
    assert TaskWeights(s') == TaskWeights(s);
    SumSnoc(RunWeights(s), 0);
  }

  lemma NextRunIsNew(s: State, id: TaskId, status: Status)
    requires Ledger(s)
    ensures s.nextRun !in s.runs && WithStatus(s, id, status).nextRun == s.nextRun && WithStatus(s, id, status).runs == s.runs
    ensures WithStatus(s, id, status).controllers == s.controllers
  {
  }

  lemma SkipKeepsWork(s: State, id: TaskId)
    requires Ledger(s)
    ensures Work(Skip(s, id)) == Work(s)
  {
    hide Ledger, WithStatus, Work;
    NextRunIsNew(s, id, Hashing);
    StatusKeepsWork(s, id, Hashing);
    NoRunNoWork(WithStatus(s, id, Hashing), id);
  }

  /** Nothing that is weighed differs. */
  ghost predicate Alike(s: State, s': State) {
    && s'.runs == s.runs && s'.nextRun == s.nextRun && s'.order == s.order && s'.files == s.files
    && s'.maxAttempts == s.maxAttempts && s'.tasks.Keys == s.tasks.Keys
    && forall id :: id in s.tasks ==> s'.tasks[id].attempts == s.tasks[id].attempts
  }

  lemma AlikeWork(s: State, s': State)
    requires Alike(s, s')
    ensures Work(s') == Work(s)
  {
    hide Weight, Token, Sum;
    assert RunWeights(s') == RunWeights(s) && TaskWeights(s') == TaskWeights(s);
  }

  lemma SettleKeepsWork(s: State)
    ensures Work(SettleIdle(s)) == Work(s) && (Ledger(s) ==> Ledger(SettleIdle(s)))
  {
    AlikeWork(s, SettleIdle(s));
    hide Work;
    if Ledger(s) { forall r | r in s.runs ensures RunOk(SettleIdle(s), s.runs[r]) { assert RunOk(s, s.runs[r]); } }
  }

  lemma StatusKeepsWork(s: State, id: TaskId, status: Status)
    ensures Work(WithStatus(s, id, status)) == Work(s)
  {
    AlikeWork(s, WithStatus(s, id, status));
    hide Work;
  }

  lemma {:induction false} PumpKeepsWork(s: State)
    requires Ledger(s)
    ensures Ledger(Pump(s)) && Work(Pump(s)) == Work(s)
    decreases |QueuedSet(s)|
  {
    hide Ledger, Work, SettleIdle, FirstQueued, QueuedSet, Launch, Skip;
    var next := FirstQueued(s, s.order);
    if s.running < s.concurrency && next.Some? {
      var id := next.value;
      FirstQueuedIsQueued(s, s.order);
      PumpUnfolds(s, id);
      if s.tasks[id].attempts + 1 <= s.maxAttempts {
        LaunchKeepsLedger(s, id);
        LaunchKeepsWork(s, id);
        LaunchQueue(s, id, s.tasks[id].attempts + 1);
        PumpKeepsWork(Launch(s, id, s.tasks[id].attempts + 1));
      } else {
        var s1 := Skip(s, id);
        SkipKeepsLedger(s, id);
        SkipKeepsWork(s, id);
        SkipQueue(s, id);
        PumpKeepsWork(s1);
        SettleKeepsWork(Pump(s1));
        SettledQueue(Pump(s1));
        PumpKeepsWork(SettleIdle(Pump(s1)));
      }
    }
  }

  // ---------------------------------------------------------------- every settlement uses some up

  lemma RemovedWork(s: State, r: RunId)
    requires Ledger(s) && r in s.runs
    ensures Work(Removed(s, r)) + RunWeight(s, r) == Work(s)
  {
    hide Weight, Token, Sum;
    assert RunWeights(Removed(s, r)) == RunWeights(s)[r := 0];
    assert TaskWeights(Removed(s, r)) == TaskWeights(s);
    SumUpdate(RunWeights(s), r, 0);
  }

  lemma FinishUnfolds(s: State, r: RunId)
    requires r in s.runs
    ensures Finish(s, r) == SettleIdle(Pump(Removed(s, r)))
  {
  }

  lemma FinishWork(s: State, r: RunId)
    requires Ledger(s) && r in s.runs
    ensures Work(Finish(s, r)) + RunWeight(s, r) == Work(s)
  {
    hide *;
    FinishUnfolds(s, r);
    RemovedKeepsLedger(s, r);
    RemovedWork(s, r);
    PumpKeepsWork(Removed(s, r));
    SettleKeepsWork(Pump(Removed(s, r)));
  }

  /** A run that comes to an end takes its weight with it. */
  lemma EndWork(s: State, r: RunId, status: Status)
    requires Ledger(s) && r in s.runs
    ensures Work(Finish(WithStatus(s, s.runs[r].task, status), r)) + RunWeight(s, r) == Work(s)
  {
    var s1 := WithStatus(s, s.runs[r].task, status);
    assert s.runs[r].task in s.tasks && r in s1.runs && RunWeight(s1, r) == RunWeight(s, r) by {
      assert RunOk(s, s.runs[r]);
      hide Weight;
    }
    hide Ledger, WithStatus, Finish, RunWeight, Work;
    StatusKeepsLedger(s, s.runs[r].task, status);
    StatusKeepsWork(s, s.runs[r].task, status);
    FinishWork(s1, r);
  }

  /** A run that moves on changes its weight only. */
  lemma MoveWork(s: State, r: RunId, status: Status, at: Await)
    requires Ledger(s) && r in s.runs
    ensures var run := s.runs[r];
      Work(At(WithStatus(s, run.task, status), r, at)) + RunWeight(s, r) ==
        Work(s) + Weight(Chunks(s, run.task), Left(s, run.attempt), at)
  {
    var s1 := WithStatus(s, s.runs[r].task, status);
    StatusKeepsWork(s, s.runs[r].task, status);
    assert r < s1.nextRun && s1.runs == s.runs && RunWeight(s1, r) == RunWeight(s, r) by { hide Weight; }
    hide Ledger;
    AtWork(s1, r, at);
    hide Work, RunWeight, Weight;
  }

  lemma AtWork(s: State, r: RunId, at: Await)
    requires r in s.runs && r < s.nextRun
    ensures var run := s.runs[r];
      Work(At(s, r, at)) + RunWeight(s, r) == Work(s) + Weight(Chunks(s, run.task), Left(s, run.attempt), at)
  {
    hide Weight, Token, Sum;
    var w := Weight(Chunks(s, s.runs[r].task), Left(s, s.runs[r].attempt), at);
    assert RunWeights(At(s, r, at)) == RunWeights(s)[r := w];
    assert TaskWeights(At(s, r, at)) == TaskWeights(s);
    SumUpdate(RunWeights(s), r, w);
  }

  lemma CatchWork(s: State, r: RunId)
    requires Ledger(s) && r in s.runs && RunWeight(s, r) > Nap(Chunks(s, s.runs[r].task), Left(s, s.runs[r].attempt))
    ensures Work(Catch(s, r)) < Work(s)
  {
    hide *;
    CatchUnfolds(s, r);
    var run := s.runs[r];
    EndWork(s, r, Cancelled);
    EndWork(s, r, Failed);
    MoveWork(s, r, Queued, Sleeping);
    AsleepWeight(Chunks(s, run.task), Left(s, run.attempt));
  }

  lemma CatchUnfolds(s: State, r: RunId)
    requires r in s.runs
    ensures var t := s.runs[r].task;
      || Catch(s, r) == Finish(WithStatus(s, t, Cancelled), r)
      || Catch(s, r) == Finish(WithStatus(s, t, Failed), r)
      || Catch(s, r) == At(WithStatus(s, t, Queued), r, Sleeping)
  {
    hide Finish, At, WithStatus;
  }

  lemma AsleepWeight(n: nat, left: nat)
    ensures Weight(n, left, Sleeping) == Nap(n, left)
  {
    hide Nap;
  }

  /** Between presigning and the put: more than a put with all its chunks to go. */
  lemma ChunkWork(s: State, r: RunId, left: nat)
    requires Ledger(s) && r in s.runs
    requires RunWeight(s, r) == Nap(Chunks(s, s.runs[r].task), Left(s, s.runs[r].attempt)) + 3 + left
    ensures Work(NextChunk(s, r, left)) < Work(s)
  {
    hide Ledger, Work, Nap, Chunks, Left, RunWeight, Catch, At, WithStatus;
    if left == 0 {
      MoveWork(s, r, Uploading, Putting);
    } else if r in s.aborted {
      CatchWork(s, r);
    } else {
      RunIsNumbered(s, r);
      AtWork(s, r, Reading(left - 1));
    }
  }

  lemma RunIsNumbered(s: State, r: RunId)
    requires Ledger(s) && r in s.runs
    ensures r < s.nextRun && s.runs[r].task in s.tasks && s.runs[r].task < |s.order|
    ensures 1 <= s.runs[r].attempt <= s.maxAttempts && (s.runs[r].at == Sleeping ==> s.runs[r].attempt < s.maxAttempts)
  {
    assert RunOk(s, s.runs[r]);
  }

  lemma WakeWeights(s: State, r: RunId)
    requires Ledger(s) && r in s.runs && s.runs[r].attempt < s.maxAttempts
    ensures var run, s' := s.runs[r], NextAttempt(s, r);
      var n, left := Chunks(s, run.task), s.maxAttempts - run.attempt - 1;
      && RunWeights(s') == RunWeights(s)[r := Weight(n, left, Presigning)]
      && TaskWeights(s') == TaskWeights(s)[run.task := Token(n, left)]
  {
    RunIsNumbered(s, r);
    hide Weight, Token, Ledger;
    var s' := NextAttempt(s, r);
    assert forall q :: 0 <= q < s.nextRun && q != r ==> RunWeight(s', q) == RunWeight(s, q);
    assert forall id :: 0 <= id < |s.order| && id != s.runs[r].task ==> TaskWeight(s', id) == TaskWeight(s, id);
  }

  /** A nap is longer than what follows it, even when the task gets back attempts that another run had taken from it. */
  lemma NapIsLong(n: nat, left: nat)
    ensures Nap(n, left + 1) == 1 + Weight(n, left, Presigning) + Token(n, left)
  {
  }

  lemma WakeWork(s: State, r: RunId)
    requires Ledger(s) && r in s.runs && s.runs[r].at == Sleeping
    ensures Work(NextAttempt(s, r)) < Work(s)
  {
    hide *;
    RunIsNumbered(s, r);
    WakeWeights(s, r);
    var run := s.runs[r];
    var n, left := Chunks(s, run.task), s.maxAttempts - run.attempt - 1;
    SumUpdate(RunWeights(s), r, Weight(n, left, Presigning));
    SumUpdate(TaskWeights(s), run.task, Token(n, left));
    SleeperWeight(s, r);
    NapIsLong(n, left);
    WorkIs(s);
    WorkIs(NextAttempt(s, r));
  }

  lemma WorkIs(s: State)
    ensures Work(s) == Sum(RunWeights(s)) + Sum(TaskWeights(s))
    ensures forall r :: 0 <= r < s.nextRun ==> RunWeights(s)[r] == RunWeight(s, r)
  {
    hide RunWeight, TaskWeight, Sum;
  }

  lemma SleeperWeight(s: State, r: RunId)
    requires r in s.runs && s.runs[r].at == Sleeping && s.runs[r].attempt < s.maxAttempts
    ensures RunWeight(s, r) == Nap(Chunks(s, s.runs[r].task), s.maxAttempts - s.runs[r].attempt)
  {
    hide Nap, Chunks;
  }

  lemma AwakeWeight(s: State, r: RunId)
    requires r in s.runs
    ensures var run := s.runs[r];
      var nap := Nap(Chunks(s, run.task), Left(s, run.attempt));
      RunWeight(s, r) == nap +
        match run.at
        case Presigning => 3 + Chunks(s, run.task)
        case Reading(left) => 3 + left
        case Putting => 2
        case Finishing => 1
        case Sleeping => 0
  {
    hide Nap, Chunks;
  }

  /** Whatever a live run's promise settles with, there is less work after it. */
  lemma SettlingIsProgress(s: State, e: Event)
    requires Ledger(s) && Due(s, e)
    ensures Work(Step(s, e)) < Work(s)
  {
    hide Ledger, Work, Nap, Chunks, Left, RunWeight, Catch, At, WithStatus, Finish, NextChunk, NextAttempt;
    var r, run := e.run, s.runs[e.run];
    AwakeWeight(s, r);
    match (run.at, e.with) {
      case (Presigning, Existing) => EndWork(s, r, Done);
      case (Presigning, Single) => ChunkWork(s, r, Chunks(s, run.task));
      case (Reading(left), Fulfilled) => ChunkWork(s, r, left);
      case (Putting, Fulfilled) => MoveWork(s, r, Completing, Finishing);
      case (Finishing, Ready) => EndWork(s, r, Done);
      case (Finishing, Refused) => EndWork(s, r, Failed);
      case (Sleeping, Fulfilled) => WakeWork(s, r);
      case (_, Rejected) => CatchWork(s, r);
    }
  }

  // ---------------------------------------------------------------- and only the page brings more

  /** What a call of the page may add to the work. */
  function Asked(s: State, e: Event): nat {
    match e
    case Add(file) => Token(file.chunks, s.maxAttempts)
    case Retry(id) => Token(Chunks(s, id), s.maxAttempts)
    case _ => 0
  }

  lemma AddWork(s: State, file: File)
    requires Ledger(s)
    ensures Work(AddFile(s, file)) == Work(s) + Token(file.chunks, s.maxAttempts)
  {
    var id := |s.order|;
    var s' := s.(order := s.order + [id], files := s.files[id := file],
                 tasks := s.tasks[id := Task(if file.rejected then Failed else Queued, 0)]);
    AddKeepsLedger(s, file, s');
    NewTaskWeighs(s, file, s');
    PumpKeepsWork(s');
    hide Ledger, Work, Pump;
  }

  lemma NewTaskWeighs(s: State, file: File, s': State)
    requires Ledger(s)
    requires s' == s.(order := s.order + [|s.order|], files := s.files[|s.order| := file],
                      tasks := s.tasks[|s.order| := Task(if file.rejected then Failed else Queued, 0)])
    ensures Work(s') == Work(s) + Token(file.chunks, s.maxAttempts)
  {
    forall r | r in s.runs
      ensures s.runs[r].task != |s.order|
    {
      RunIsNumbered(s, r);
    }
    hide Ledger, Weight, Token, Sum;
    assert RunWeights(s') == RunWeights(s);
    assert TaskWeights(s') == TaskWeights(s) + [Token(file.chunks, s.maxAttempts)];
    SumSnoc(TaskWeights(s), Token(file.chunks, s.maxAttempts));
  }

  lemma RetryWork(s: State, id: TaskId)
    requires Ledger(s)
    ensures Work(RetryTask(s, id)) <= Work(s) + Token(Chunks(s, id), s.maxAttempts)
  {
    if id in s.tasks {
      var s' := s.(tasks := s.tasks[id := Task(Queued, 0)]);
      RetaskKeepsLedger(s, id, Task(Queued, 0));
      RequeuedWeighs(s, id);
      PumpKeepsWork(s');
      StatusKeepsWork(s, id, Failed);
      hide Ledger, Work, Pump, WithStatus;
    }
  }

  lemma RequeuedWeighs(s: State, id: TaskId)
    requires Ledger(s) && id in s.tasks
    ensures Work(s.(tasks := s.tasks[id := Task(Queued, 0)])) <= Work(s) + Token(Chunks(s, id), s.maxAttempts)
  {
    TaskIsListed(s, id);
    hide Ledger, Weight, Token, Sum;
    var s' := s.(tasks := s.tasks[id := Task(Queued, 0)]);
    assert RunWeights(s') == RunWeights(s);
    assert TaskWeights(s') == TaskWeights(s)[id := Token(Chunks(s, id), s.maxAttempts)];
    SumUpdate(TaskWeights(s), id, Token(Chunks(s, id), s.maxAttempts));
  }

  lemma CancelWork(s: State, id: TaskId)
    ensures Work(CancelTask(s, id)) == Work(s)
  {
    hide Work, SettleIdle;
    if id in s.tasks {
      var s1 := if id in s.controllers then s.(aborted := s.aborted + {s.controllers[id]}) else s;
      var s2 := WithStatus(s1, id, Cancelled);
      AlikeWork(s, s2);
      SettleKeepsWork(s2);
    }
  }

  lemma IdleWork(s: State)
    ensures Work(AwaitIdle(s)) == Work(s)
  {
    AlikeWork(s, AwaitIdle(s));
    hide Work;
  }

  lemma NotDue(s: State, e: Event)
    requires e.Settle? && !Due(s, e)
    ensures Step(s, e) == s
  {
    hide Finish, Catch, NextChunk, NextAttempt, At, WithStatus;
  }

  lemma CallsBringWork(s: State, e: Event)
    requires Ledger(s)
    ensures Work(Step(s, e)) + (if Due(s, e) then 1 else 0) <= Work(s) + Asked(s, e)
  {
    hide Ledger, Work, AddFile, CancelTask, RetryTask, AwaitIdle, Token, Chunks;
    match e
    case Add(file) => AddWork(s, file);
    case Cancel(id) => CancelWork(s, id);
    case Retry(id) => RetryWork(s, id);
    case Idle => IdleWork(s);
    case Settle(r, with) => hide Step; if Due(s, e) { SettlingIsProgress(s, e); } else { NotDue(s, e); }
  }

  // ---------------------------------------------------------------- over whole runs

  /** How many of the events settle what a live run waits for. */
  function Settled(s: State, events: seq<Event>): nat {
    if events == [] then 0
    else
      var n := |events| - 1;
      Settled(s, events[..n]) + if Due(Trace(s, events[..n]), events[n]) then 1 else 0
  }

  /** What the page asks for along the way. */
  function AskedAlong(s: State, events: seq<Event>): nat {
    if events == [] then 0
    else
      var n := |events| - 1;
      AskedAlong(s, events[..n]) + Asked(Trace(s, events[..n]), events[n])
  }

  lemma InvHasLedger(s: State)
    requires Inv(s)
    ensures Ledger(s)
  {
  }

  /** However calls and settlements are mixed, the settlements are as many at most as the work there was and the work
    * asked for.
    */
  lemma {:induction false} SettlementsAreBounded(s: State, events: seq<Event>)
    requires Inv(s)
    ensures Inv(Trace(s, events))
    ensures Settled(s, events) + Work(Trace(s, events)) <= Work(s) + AskedAlong(s, events)
    decreases |events|
  {
    hide Inv, Work, Step, Due, Asked;
    if events != [] {
      var n := |events| - 1;
      var s1 := Trace(s, events[..n]);
      SettlementsAreBounded(s, events[..n]);
      StepKeepsInv(s1, events[n]);
      InvHasLedger(s1);
      CallsBringWork(s1, events[n]);
    }
  }

  lemma NoWorkAtFirst(concurrency: nat, maxAttempts: nat)
    ensures Work(Initial(concurrency, maxAttempts)) == 0
  {
  }

  /** From an empty queue on, every settlement was asked for: by adding the file or trying it again. */
  lemma EverySettlementWasAskedFor(concurrency: nat, maxAttempts: nat, events: seq<Event>)
    requires maxAttempts >= 1
    ensures var s := Initial(concurrency, maxAttempts); Settled(s, events) <= AskedAlong(s, events)
  {
    hide Inv, Work, Initial, Settled, AskedAlong, Trace;
    InitialInv(concurrency, maxAttempts);
    NoWorkAtFirst(concurrency, maxAttempts);
    SettlementsAreBounded(Initial(concurrency, maxAttempts), events);
  }

  /** The events are settlements only, each of a run that is live when it comes. */
  ghost predicate OnlySettles(s: State, events: seq<Event>) {
    forall i :: 0 <= i < |events| ==> Due(Trace(s, events[..i]), events[i])
  }

  lemma OnlySettlesFront(s: State, events: seq<Event>)
    requires OnlySettles(s, events) && events != []
    ensures var n := |events| - 1; OnlySettles(s, events[..n]) && Due(Trace(s, events[..n]), events[n])
  {
    var n := |events| - 1;
    hide Due, Trace;
    forall i | 0 <= i < n
      ensures Due(Trace(s, events[..n][..i]), events[..n][i])
    {
      assert events[..n][..i] == events[..i];
    }
  }

  lemma OnlySettlesSnoc(s: State, events: seq<Event>, e: Event)
    requires OnlySettles(s, events) && Due(Trace(s, events), e)
    ensures OnlySettles(s, events + [e]) && Trace(s, events + [e]) == Step(Trace(s, events), e)
  {
    var all := events + [e];
    assert all[..|events|] == events;
    assert Trace(s, all) == Step(Trace(s, events), e);
    hide Due, Trace;
    forall i | 0 <= i < |all|
      ensures Due(Trace(s, all[..i]), all[i])
    {
      if i < |events| { assert all[..i] == events[..i]; }
    }
  }

  lemma {:induction false} SettlesAskNothing(s: State, events: seq<Event>)
    requires OnlySettles(s, events)
    ensures Settled(s, events) == |events| && AskedAlong(s, events) == 0
    decreases |events|
  {
    hide OnlySettles, Trace;
    if events != [] {
      OnlySettlesFront(s, events);
      SettlesAskNothing(s, events[..|events| - 1]);
    }
  }

  /** Every await can settle. */
  function AnAnswer(at: Await): (with: Settlement)
    ensures Answers(at, with)
  {
    match at
    case Presigning => Existing
    case Finishing => Ready
    case _ => Fulfilled
  }

  /** The queue is busy exactly as long as there is a settlement to come. */
  lemma BusyExactlyWhenDue(s: State)
    requires Inv(s) && s.concurrency >= 1
    ensures Busy(s) <==> exists e :: Due(s, e)
  {
    LiveRunsAreBounded(s);
    if Busy(s) {
      BusyMeansRunning(s);
      assert s.runs.Keys != {} by { assert |s.runs.Keys| == |s.runs|; }
      var r :| r in s.runs.Keys;
      assert Due(s, Settle(r, AnAnswer(s.runs[r].at)));
    }
    if e :| Due(s, e) {
      assert e.run in s.runs.Keys;
    }
  }

  lemma BusyMeansRunning(s: State)
    requires Inv(s) && s.concurrency >= 1 && Busy(s)
    ensures s.running > 0
  {
    FirstQueuedIsQueued(s, s.order);
    hide Inv;
    if s.running <= 0 { QueuedMeansRunning(s, FirstQueued(s, s.order).value); }
  }

  /** The two numbers the queue was made with. */
  predicate SameSettings(s: State, s': State) {
    s'.concurrency == s.concurrency && s'.maxAttempts == s.maxAttempts
  }

  lemma {:induction false} SettingsStay(s: State, events: seq<Event>)
    ensures SameSettings(s, Trace(s, events))
    decreases |events|
  {
    hide Step;
    if events != [] {
      SettingsStay(s, events[..|events| - 1]);
      StepKeepsSettings(Trace(s, events[..|events| - 1]), events[|events| - 1]);
    }
  }

  lemma {:induction false} PumpKeepsSettings(s: State)
    ensures SameSettings(s, Pump(s))
    decreases |QueuedSet(s)|
  {
    hide QueuedSet, FirstQueued, Busy;
    var next := FirstQueued(s, s.order);
    if s.running < s.concurrency && next.Some? {
      var id := next.value;
      FirstQueuedIsQueued(s, s.order);
      LaunchQueue(s, id, s.tasks[id].attempts + 1);
      SkipQueue(s, id);
      PumpUnfolds(s, id);
      if s.tasks[id].attempts + 1 <= s.maxAttempts {
        PumpKeepsSettings(Launch(s, id, s.tasks[id].attempts + 1));
      } else {
        var s1 := Skip(s, id);
        PumpKeepsSettings(s1);
        SettledQueue(Pump(s1));
        PumpKeepsSettings(SettleIdle(Pump(s1)));
      }
    }
  }

  lemma FinishKeepsSettings(s: State, r: RunId)
    ensures SameSettings(s, Finish(s, r))
  {
    if r in s.runs { PumpKeepsSettings(Removed(s, r)); }
    hide Pump;
  }

  lemma ContinueKeepsSettings(s: State, r: RunId, with: Settlement)
    ensures SameSettings(s, Continue(s, r, with))
  {
    hide Finish, WithStatus;
    if r in s.runs {
      var t := s.runs[r].task;
      FinishKeepsSettings(s, r);
      FinishKeepsSettings(WithStatus(s, t, Done), r);
      FinishKeepsSettings(WithStatus(s, t, Failed), r);
      FinishKeepsSettings(WithStatus(s, t, Cancelled), r);
      StatusKeepsSettings(s, t);
    }
  }

  lemma StatusKeepsSettings(s: State, t: TaskId)
    ensures forall status :: SameSettings(s, WithStatus(s, t, status))
  {
  }

  lemma StepKeepsSettings(s: State, e: Event)
    ensures SameSettings(s, Step(s, e))
  {
    hide Pump, Continue, Busy;
    match e
    case Add(file) =>
      var id := |s.order|;
      PumpKeepsSettings(s.(order := s.order + [id], files := s.files[id := file],
                        tasks := s.tasks[id := Task(if file.rejected then Failed else Queued, 0)]));
    case Cancel(id) =>
    case Retry(id) => PumpKeepsSettings(s.(tasks := s.tasks[id := Task(Queued, 0)]));
    case Idle =>
    case Settle(r, with) => ContinueKeepsSettings(s, r, with);
  }

  // ---------------------------------------------------------------- the queue comes to rest

  /** Whatever comes back, in whatever order: if the page asks for nothing more, there are only so many settlements
    * left, some settlement is still to come exactly as long as the queue is busy, and when none is, every task has
    * reached its end and nobody waits.
    */
  lemma EveryDrainEnds(s: State, events: seq<Event>)
    requires Inv(s) && s.concurrency >= 1 && OnlySettles(s, events)
    ensures |events| <= Work(s)
    ensures var end := Trace(s, events);
      && (Busy(end) <==> exists e :: OnlySettles(s, events + [e]))
      && (!Busy(end) ==> end.waiters == [] && forall id :: id in end.tasks ==> IsTerminal(end.tasks[id].status))
  {
    hide Inv, Busy, Work, Trace, OnlySettles, Due, Settled, AskedAlong;
    var end := Trace(s, events);
    SettlesAskNothing(s, events);
    SettlementsAreBounded(s, events);
    SettingsStay(s, events);
    BusyExactlyWhenDue(end);
    if e :| Due(end, e) { OnlySettlesSnoc(s, events, e); }
    if e :| OnlySettles(s, events + [e]) { LastIsDue(s, events, e); }
    if !Busy(end) { IdleIsFinished(end); }
  }

  lemma LastIsDue(s: State, events: seq<Event>, e: Event)
    requires OnlySettles(s, events + [e])
    ensures Due(Trace(s, events), e)
  {
    hide Due, Trace;
    OnlySettlesFront(s, events + [e]);
    assert (events + [e])[..|events|] == events;
  }

  /** Any run of settlements can be carried on until the queue is idle. */
  lemma {:induction false} CanDrain(s: State, events: seq<Event>) returns (all: seq<Event>)
    requires Inv(s) && s.concurrency >= 1 && OnlySettles(s, events)
    ensures events <= all && OnlySettles(s, all) && !Busy(Trace(s, all))
    decreases Work(s) - |events|
  {
    hide Inv, Busy, Work, Trace, OnlySettles;
    EveryDrainEnds(s, events);
    if !Busy(Trace(s, events)) { return events; }
    var e :| OnlySettles(s, events + [e]);
    EveryDrainEnds(s, events + [e]);
    all := CanDrain(s, events + [e]);
  }
}
