/** What one step does to each run and each task, and what that comes to over whole runs: a file that the server calls
  * ready has been read and sent, chunk after chunk, in the attempt that got it there.
  */
module UploadOrder {
  import opened Options
  import opened UploadQueue
  import opened UploadDrain

  // ---------------------------------------------------------------- who is started

  /** The pump starts waiting tasks, the first ones first, each with its next attempt, and no task with attempts to go
    * drops out of the queue without a run.
    */
  ghost predicate Starts(s: State, s': State) {
    && s.nextRun <= s'.nextRun
    && (forall r :: r in s'.runs && r !in s.runs ==> r >= s.nextRun && StartedRun(s, s'.runs[r]))
    && (forall id :: IsQueued(s', id) ==> IsQueued(s, id) && s'.tasks[id] == s.tasks[id])
    && (forall r, id :: r in s'.runs && r !in s.runs && IsQueued(s', id) ==> s'.runs[r].task < id)
    && (forall id :: IsQueued(s, id) && !IsQueued(s', id) ==> id in s'.tasks && Dequeued(s, s', id))
  }

  ghost predicate StartedRun(s: State, run: Run) {
    IsQueued(s, run.task) && run.attempt == s.tasks[run.task].attempts + 1 && run.at == Presigning
  }

  ghost predicate Dequeued(s: State, s': State, id: TaskId)
    requires id in s.tasks && id in s'.tasks
  {
    && s'.tasks[id].status == Hashing
    && (s.tasks[id].attempts < s.maxAttempts ==>
         && s'.tasks[id].attempts == s.tasks[id].attempts + 1
         && exists r :: r in s'.runs && r !in s.runs && s'.runs[r].task == id)
  }

  lemma StartsNothing(s: State)
    ensures Starts(s, s) && Starts(s, SettleIdle(s))
  {
  }

  lemma FirstIsFirst(s: State, id: TaskId)
    requires Ledger(s) && FirstQueued(s, s.order) == Some(id)
    ensures IsQueued(s, id) && forall other: TaskId :: IsQueued(s, other) ==> id <= other
  {
    FirstQueuedIsQueued(s, s.order);
    forall other: TaskId | IsQueued(s, other)
      ensures id <= other
    {
      TaskIsListed(s, other);
      assert s.order[other] == other;
      NotBeforeFirst(s, s.order, other);
    }
  }

  lemma {:induction false} NotBeforeFirst(s: State, order: seq<TaskId>, i: nat)
    requires i < |order| && IsQueued(s, order[i])
    requires forall j, k :: 0 <= j < k < |order| ==> order[j] < order[k]
    ensures FirstQueued(s, order).Some? && FirstQueued(s, order).value <= order[i]
  {
    if !IsQueued(s, order[0]) {
      NotBeforeFirst(s, order[1..], i - 1);
    }
  }

  lemma LaunchStarts(s: State, id: TaskId)
    requires Ledger(s) && FirstQueued(s, s.order) == Some(id) && IsQueued(s, id) && s.tasks[id].attempts < s.maxAttempts
    ensures Starts(s, Launch(s, id, s.tasks[id].attempts + 1))
  {
    hide Ledger, FirstQueued, Launch;
    FirstIsFirst(s, id);
    NextRunIsNew(s, id, Hashing);
    LaunchedOnly(s, id, s.tasks[id].attempts + 1);
    var s' := Launch(s, id, s.tasks[id].attempts + 1);
    forall other: TaskId | IsQueued(s', other)
      ensures IsQueued(s, other) && id < other && s'.tasks[other] == s.tasks[other]
    {
    }
    assert Dequeued(s, s', id);
  }

  lemma LaunchedOnly(s: State, id: TaskId, attempt: nat)
    requires id in s.tasks && s.nextRun !in s.runs
    ensures var s' := Launch(s, id, attempt);
      && (forall r :: r in s'.runs && r !in s.runs ==> r == s.nextRun && s'.runs[r] == Run(id, attempt, Presigning))
      && s.nextRun in s'.runs && s'.runs[s.nextRun].task == id
      && s'.nextRun == s.nextRun + 1 && s'.tasks == s.tasks[id := Task(Hashing, attempt)]
  {
  }

  lemma SkipStarts(s: State, id: TaskId)
    requires Ledger(s) && IsQueued(s, id) && s.tasks[id].attempts >= s.maxAttempts
    ensures Starts(s, Skip(s, id))
  {
    hide Ledger;
  }

  lemma StartsTwice(a: State, b: State, c: State)
    requires Starts(a, b) && Starts(b, c) && Pumped(a, b) && Pumped(b, c)
    ensures Starts(a, c)
  {
    RunsStartedTwice(a, b, c);
    forall id | IsQueued(a, id) && !IsQueued(c, id)
      ensures id in c.tasks && Dequeued(a, c, id)
    {
      DequeuedTwice(a, b, c, id);
    }
    QueuesShrink(a, b, c);
    hide Pumped, Dequeued, StartedRun, IsQueued;
  }

  lemma QueuesShrink(a: State, b: State, c: State)
    requires Starts(a, b) && Starts(b, c)
    ensures a.nextRun <= c.nextRun
    ensures forall id :: IsQueued(c, id) ==> IsQueued(a, id) && c.tasks[id] == a.tasks[id]
  {
    hide Dequeued, StartedRun;
  }

  lemma RunsStartedTwice(a: State, b: State, c: State)
    requires Starts(a, b) && Starts(b, c) && Pumped(a, b) && Pumped(b, c)
    ensures forall r :: r in c.runs && r !in a.runs ==> r >= a.nextRun && StartedRun(a, c.runs[r])
    ensures forall r, id :: r in c.runs && r !in a.runs && IsQueued(c, id) ==> c.runs[r].task < id
  {
    hide Dequeued;
  }

  lemma DequeuedTwice(a: State, b: State, c: State, id: TaskId)
    requires Starts(a, b) && Starts(b, c) && Pumped(a, b) && Pumped(b, c) && IsQueued(a, id) && !IsQueued(c, id)
    ensures id in c.tasks && Dequeued(a, c, id)
  {
    if IsQueued(b, id) {
      assert Dequeued(b, c, id);
      if a.tasks[id].attempts < a.maxAttempts {
        var r :| r in c.runs && r !in b.runs && c.runs[r].task == id;
        assert r !in a.runs;
      }
    } else {
      assert Dequeued(a, b, id);
      if a.tasks[id].attempts < a.maxAttempts {
        var r :| r in b.runs && r !in a.runs && b.runs[r].task == id;
        assert r in c.runs && c.runs[r].task == id;
      }
    }
    hide StartedRun;
  }

  lemma {:induction false} PumpStarts(s: State)
    requires Ledger(s)
    ensures Starts(s, Pump(s)) && Pumped(s, Pump(s))
    decreases |QueuedSet(s)|
  {
    hide *;
    PumpStops(s);
    var next := FirstQueued(s, s.order);
    if s.running < s.concurrency && next.Some? {
      var id := next.value;
      FirstQueuedIsQueued(s, s.order);
      QueuedIsKnown(s, id);
      PumpUnfolds(s, id);
      if s.tasks[id].attempts + 1 <= s.maxAttempts {
        var s1 := Launch(s, id, s.tasks[id].attempts + 1);
        LaunchKeepsLedger(s, id);
        LaunchPumps(s, id);
        LaunchStarts(s, id);
        LaunchQueue(s, id, s.tasks[id].attempts + 1);
        PumpStarts(s1);
        PumpedTransitive(s, s1, Pump(s1));
        StartsTwice(s, s1, Pump(s1));
      } else {
        var s1 := Skip(s, id);
        var s2 := Pump(s1);
        SkipKeepsLedger(s, id);
        SkipPumps(s, id);
        SkipStarts(s, id);
        SkipQueue(s, id);
        PumpStarts(s1);
        PumpedTransitive(s, s1, s2);
        StartsTwice(s, s1, s2);
        PumpKeepsWork(s1);
        SettledStarts(s, s2);
        PumpStarts(SettleIdle(s2));
        PumpedTransitive(s, SettleIdle(s2), Pump(SettleIdle(s2)));
        StartsTwice(s, SettleIdle(s2), Pump(SettleIdle(s2)));
      }
    } else {
      StartsNothing(s);
      PumpedSelf(s);
    }
  }

  /** Resolving the waiters in between changes nothing of this. */
  lemma SettledStarts(s: State, s2: State)
    requires Starts(s, s2) && Pumped(s, s2) && Ledger(s2)
    ensures Starts(s, SettleIdle(s2)) && Pumped(s, SettleIdle(s2)) && Ledger(SettleIdle(s2))
    ensures |QueuedSet(SettleIdle(s2))| == |QueuedSet(s2)|
  {
    hide *;
    StartsNothing(s2);
    SettlePumps(s2);
    StartsTwice(s, s2, SettleIdle(s2));
    PumpedTransitive(s, s2, SettleIdle(s2));
    SettleKeepsWork(s2);
    SettledQueue(s2);
  }

  lemma FinishStarts(s: State, r: RunId)
    requires Ledger(s) && r in s.runs
    ensures Starts(Removed(s, r), Finish(s, r)) && Pumped(Removed(s, r), Finish(s, r))
  {
    hide *;
    var s1 := Removed(s, r);
    FinishUnfolds(s, r);
    RemovedKeepsLedger(s, r);
    PumpStarts(s1);
    PumpKeepsWork(s1);
    SettledStarts(s1, Pump(s1));
  }

  // ---------------------------------------------------------------- what a settlement makes of its run

  /** A live run that has been told `with` goes on as `after`. */
  ghost predicate GoesOn(run: Run, aborted: bool, chunks: nat, maxAttempts: nat, with: Settlement, after: Run) {
    && after.task == run.task
    && match after.at
       case Reading(left) =>
         && !aborted && after.attempt == run.attempt
         && ((run.at == Presigning && with == Single && chunks == left + 1) || (run.at == Reading(left + 1) && with == Fulfilled))
       case Putting =>
         && after.attempt == run.attempt
         && ((run.at == Presigning && with == Single && chunks == 0) || (run.at == Reading(0) && with == Fulfilled))
       case Finishing => run.at == Putting && with == Fulfilled && after.attempt == run.attempt
       case Sleeping => with == Rejected && !aborted && run.attempt < maxAttempts && after.attempt == run.attempt
       case Presigning => run.at == Sleeping && with == Fulfilled && after.attempt == run.attempt + 1
  }

  /** ... and this is what its task shows. */
  ghost predicate Shows(run: Run, after: Run, before: Task, task: Task) {
    match after.at
    case Reading(left) => task == before
    case Putting => task == before.(status := Uploading)
    case Finishing => task == before.(status := Completing)
    case Sleeping => task == before.(status := Queued)
    case Presigning => task == Task(Hashing, after.attempt)
  }

  /** It is over, and its task shows how. */
  ghost predicate Ends(run: Run, aborted: bool, chunks: nat, maxAttempts: nat, with: Settlement, status: Status) {
    match status
    case Done => (run.at == Presigning && with == Existing) || (run.at == Finishing && with == Ready)
    case Failed =>
      (run.at == Finishing && with == Refused) || (with == Rejected && !aborted && run.attempt >= maxAttempts)
    case Cancelled =>
      && aborted
      && (with == Rejected || (run.at == Presigning && with == Single && chunks > 0) ||
          (run.at.Reading? && run.at.left > 0 && with == Fulfilled))
    case _ => false
  }

  /** What a settlement of run `r` may make of the state. */
  ghost predicate Tells(s: State, r: RunId, with: Settlement, s': State)
    requires r in s.runs
  {
    var run := s.runs[r];
    var aborted, chunks := r in s.aborted, Chunks(s, run.task);
    && run.task in s.tasks && run.task in s'.tasks
    && if r in s'.runs
       then GoesOn(run, aborted, chunks, s.maxAttempts, with, s'.runs[r]) && s'.runs.Keys == s.runs.Keys &&
            Shows(run, s'.runs[r], s.tasks[run.task], s'.tasks[run.task])
       else Ends(run, aborted, chunks, s.maxAttempts, with, s'.tasks[run.task].status)
  }

  /** A new run is of a task that waited, with its next attempt, and was its turn: whoever still waits was added
    * later.
    */
  ghost predicate NextInTurn(s: State, run: Run, s': State) {
    StartedRun(s, run) && Foremost(run, s')
  }

  ghost predicate Foremost(run: Run, s': State) {
    forall id :: IsQueued(s', id) ==> run.task < id
  }

  /** The other runs stay as they are, and of the other tasks only waiting ones change, in turn. */
  ghost predicate Others(s: State, r: RunId, s': State)
    requires r in s.runs
  {
    && (forall q :: q in s.runs && q != r ==> q in s'.runs && s'.runs[q] == s.runs[q])
    && (forall id :: id in s.tasks && id != s.runs[r].task && !IsQueued(s, id) ==> id in s'.tasks && s'.tasks[id] == s.tasks[id])
    && s'.order == s.order && s'.files == s.files && s'.aborted == s.aborted && s.nextRun <= s'.nextRun
    && (forall q :: q in s'.runs && q !in s.runs ==> q >= s.nextRun && NextInTurn(s, s'.runs[q], s'))
    && (forall id :: IsQueued(s, id) && id != s.runs[r].task && !IsQueued(s', id) ==> id in s'.tasks && Dequeued(s, s', id))
  }

  lemma AfterEnd(s: State, r: RunId, s': State)
    requires r in s.runs && r < s.nextRun && Starts(Removed(s, r), s') && Pumped(Removed(s, r), s')
    ensures r !in s'.runs
    ensures forall q :: q in s.runs && q != r ==> q in s'.runs && s'.runs[q] == s.runs[q]
    ensures forall id :: id in s.tasks && !IsQueued(s, id) ==> id in s'.tasks && s'.tasks[id] == s.tasks[id]
    ensures s'.order == s.order && s'.files == s.files && s'.aborted == s.aborted && s.nextRun <= s'.nextRun
  {
    hide StartedRun, Dequeued;
  }

  lemma StartsAfterEnd(s: State, r: RunId, t: TaskId, status: Status, s': State)
    requires var s1 := WithStatus(s, t, status);
      t in s.tasks && r in s.runs && r !in s'.runs && IsTerminal(status) && Starts(Removed(s1, r), s')
    ensures forall q :: q in s'.runs && q !in s.runs ==> q >= s.nextRun && NextInTurn(s, s'.runs[q], s')
    ensures forall id :: IsQueued(s, id) && id != t && !IsQueued(s', id) ==> id in s'.tasks && Dequeued(s, s', id)
  {
    var s1 := Removed(WithStatus(s, t, status), r);
    forall q | q in s'.runs && q !in s.runs
      ensures q >= s.nextRun && NextInTurn(s, s'.runs[q], s')
    {
      assert StartedRun(s1, s'.runs[q]);
    }
    forall id | IsQueued(s, id) && id != t && !IsQueued(s', id)
      ensures id in s'.tasks && Dequeued(s, s', id)
    {
      assert IsQueued(s1, id) && Dequeued(s1, s', id);
      if s.tasks[id].attempts < s.maxAttempts {
        var q :| q in s'.runs && q !in s1.runs && s'.runs[q].task == id;
        assert q !in s.runs;
      }
    }
  }

  lemma StatusOnly(s: State, t: TaskId, status: Status)
    requires t in s.tasks
    ensures var s1 := WithStatus(s, t, status);
      && s1.runs == s.runs && s1.order == s.order && s1.files == s.files && s1.aborted == s.aborted && s1.nextRun == s.nextRun
      && s1.tasks == s.tasks[t := s.tasks[t].(status := status)]
      && forall id :: id != t ==> (IsQueued(s1, id) <==> IsQueued(s, id))
  {
  }

  lemma EndTells(s: State, r: RunId, with: Settlement, status: Status)
    requires Ledger(s) && r in s.runs && IsTerminal(status)
    requires Ends(s.runs[r], r in s.aborted, Chunks(s, s.runs[r].task), s.maxAttempts, with, status)
    ensures var s' := Finish(WithStatus(s, s.runs[r].task, status), r);
      Tells(s, r, with, s') && r !in s'.runs && Others(s, r, s')
  {
    hide Ledger, Finish, Ends, Chunks, WithStatus, GoesOn, Shows, Starts, Pumped, Dequeued, NextInTurn;
    var t := s.runs[r].task;
    var s1 := WithStatus(s, t, status);
    RunIsNumbered(s, r);
    StatusOnly(s, t, status);
    StatusKeepsLedger(s, t, status);
    FinishStarts(s1, r);
    AfterEnd(s1, r, Finish(s1, r));
    StartsAfterEnd(s, r, t, status, Finish(s1, r));
    assert !IsQueued(s1, t);
  }

  lemma MoveTells(s: State, r: RunId, with: Settlement, status: Status, at: Await)
    requires Ledger(s) && r in s.runs
    requires var run := s.runs[r];
      && GoesOn(run, r in s.aborted, Chunks(s, run.task), s.maxAttempts, with, run.(at := at))
      && (run.task in s.tasks ==> Shows(run, run.(at := at), s.tasks[run.task], s.tasks[run.task].(status := status)))
    ensures var s' := At(WithStatus(s, s.runs[r].task, status), r, at); Tells(s, r, with, s') && Others(s, r, s')
  {
    hide Ledger, GoesOn, Shows, Ends, Chunks, WithStatus;
    RunIsNumbered(s, r);
    StatusOnly(s, s.runs[r].task, status);
    assert s.runs[r := s.runs[r].(at := at)].Keys == s.runs.Keys;
  }

  lemma CatchTells(s: State, r: RunId, with: Settlement)
    requires Ledger(s) && r in s.runs
    requires with == Rejected || Ends(s.runs[r], r in s.aborted, Chunks(s, s.runs[r].task), s.maxAttempts, with, Cancelled)
    ensures Tells(s, r, with, Catch(s, r)) && Others(s, r, Catch(s, r))
  {
    hide Ledger, Tells, Others, Finish, WithStatus, At, Chunks;
    if r in s.aborted {
      EndTells(s, r, with, Cancelled);
    } else if s.runs[r].attempt >= s.maxAttempts {
      EndTells(s, r, with, Failed);
    } else {
      MoveTells(s, r, with, Queued, Sleeping);
    }
  }

  lemma ChunkTells(s: State, r: RunId, left: nat, with: Settlement)
    requires Ledger(s) && r in s.runs
    requires var run := s.runs[r];
      (run.at == Presigning && with == Single && left == Chunks(s, run.task)) || (run.at == Reading(left) && with == Fulfilled)
    ensures Tells(s, r, with, NextChunk(s, r, left)) && Others(s, r, NextChunk(s, r, left))
  {
    hide Ledger, Tells, Others, Catch, WithStatus, At, Chunks;
    RunIsNumbered(s, r);
    if left == 0 {
      MoveTells(s, r, with, Uploading, Putting);
    } else if r in s.aborted {
      CatchTells(s, r, with);
    } else {
      StaysShown(s, r, left - 1);
      MoveTells(s, r, with, s.tasks[s.runs[r].task].status, Reading(left - 1));
    }
  }

  lemma StaysShown(s: State, r: RunId, left: nat)
    requires r in s.runs && s.runs[r].task in s.tasks
    ensures var t := s.runs[r].task; At(WithStatus(s, t, s.tasks[t].status), r, Reading(left)) == At(s, r, Reading(left))
  {
    var t := s.runs[r].task;
    assert s.tasks[t := s.tasks[t].(status := s.tasks[t].status)] == s.tasks;
  }

  lemma WakeTells(s: State, r: RunId)
    requires Ledger(s) && r in s.runs && s.runs[r].at == Sleeping
    ensures Tells(s, r, Fulfilled, NextAttempt(s, r)) && Others(s, r, NextAttempt(s, r))
  {
    hide Ledger, NextAttempt, Chunks, Ends;
    RunIsNumbered(s, r);
    WakesAs(s, r);
    var run := s.runs[r];
    assert s.runs[r := Run(run.task, run.attempt + 1, Presigning)].Keys == s.runs.Keys;
  }

  /** Which branch a settlement takes, and what that branch asks of the tables. */
  lemma ContinueUnfolds(s: State, r: RunId, with: Settlement)
    requires Due(s, Settle(r, with)) && s.runs[r].task in s.tasks
    ensures IsTerminal(Done) && IsTerminal(Failed)
    ensures var run, t, s' := s.runs[r], s.runs[r].task, Step(s, Settle(r, with));
      var aborted, chunks := r in s.aborted, Chunks(s, run.task);
      match (run.at, with)
      case (Presigning, Existing) => s' == Finish(WithStatus(s, t, Done), r) && Ends(run, aborted, chunks, s.maxAttempts, with, Done)
      case (Presigning, Single) => s' == NextChunk(s, r, chunks)
      case (Reading(left), Fulfilled) => s' == NextChunk(s, r, left)
      case (Putting, Fulfilled) =>
        && s' == At(WithStatus(s, t, Completing), r, Finishing)
        && GoesOn(run, aborted, chunks, s.maxAttempts, with, run.(at := Finishing))
        && Shows(run, run.(at := Finishing), s.tasks[t], s.tasks[t].(status := Completing))
      case (Finishing, Ready) => s' == Finish(WithStatus(s, t, Done), r) && Ends(run, aborted, chunks, s.maxAttempts, with, Done)
      case (Finishing, Refused) => s' == Finish(WithStatus(s, t, Failed), r) && Ends(run, aborted, chunks, s.maxAttempts, with, Failed)
      case (Sleeping, Fulfilled) => s' == NextAttempt(s, r)
      case (_, Rejected) => s' == Catch(s, r)
      case _ => false
  {
    hide Catch, NextChunk, NextAttempt, WithStatus, At, Chunks, Finish;
  }

  lemma DueIsLive(s: State, r: RunId, with: Settlement)
    requires Due(s, Settle(r, with))
    ensures r in s.runs && Answers(s.runs[r].at, with)
  {
  }

  /** Whatever its promise settles with, the run goes on or ends, and its task shows it, as the tables above say; the
    * other runs and the tasks that do not wait are left alone.
    */
  lemma EverySettlementTells(s: State, r: RunId, with: Settlement)
    requires Inv(s) && Due(s, Settle(r, with))
    ensures Tells(s, r, with, Step(s, Settle(r, with))) && Others(s, r, Step(s, Settle(r, with)))
  {
    hide *;
    InvHasLedger(s);
    DueIsLive(s, r, with);
    RunIsNumbered(s, r);
    var run, s' := s.runs[r], Step(s, Settle(r, with));
    ContinueUnfolds(s, r, with);
    match (run.at, with) {
      case (Presigning, Existing) => EndTells(s, r, with, Done);
      case (Presigning, Single) => ChunkTells(s, r, Chunks(s, run.task), with);
      case (Reading(left), Fulfilled) => ChunkTells(s, r, left, with);
      case (Putting, Fulfilled) => MoveTells(s, r, with, Completing, Finishing);
      case (Finishing, Ready) => EndTells(s, r, with, Done);
      case (Finishing, Refused) => EndTells(s, r, with, Failed);
      case (Sleeping, Fulfilled) => WakeTells(s, r);
      case (_, Rejected) => CatchTells(s, r, with);
    }
  }

  // ---------------------------------------------------------------- what else can happen to a run

  /** What a call makes wait, before the pump looks. */
  ghost predicate Asks(s: State, e: Event, s1: State) {
    && Ledger(s1) && s1.runs == s.runs && s1.nextRun == s.nextRun
    && (forall id :: IsQueued(s1, id) ==>
         (IsQueued(s, id) && s1.tasks[id] == s.tasks[id]) || (AsksFor(s, e, id) && s1.tasks[id] == Task(Queued, 0)))
    && (forall id :: IsQueued(s, id) || AsksFor(s, e, id) ==> IsQueued(s1, id))
    && (forall id :: AsksFor(s, e, id) ==> !IsQueued(s, id))
    && s1.maxAttempts == s.maxAttempts
    && s1.order == (if e.Add? then s.order + [|s.order|] else s.order)
    && s1.files == (if e.Add? then s.files[|s.order| := e.file] else s.files)
  }

  /** The page adds this valid file, or tries again a task that failed or was cancelled. */
  ghost predicate AsksFor(s: State, e: Event, id: TaskId) {
    match e
    case Add(file) => !file.rejected && id == |s.order|
    case Retry(t) =>
      id == t && t in s.tasks && (s.tasks[t].status == Failed || s.tasks[t].status == Cancelled) &&
      t in s.files && !s.files[t].rejected
    case _ => false
  }

  /** A new run is of a task that waited, with its next attempt, or of one just asked for, with the first, and in
    * turn.
    */
  ghost predicate InTurn(s: State, e: Event, run: Run, s': State) {
    && (StartedRun(s, run) || (AsksFor(s, e, run.task) && run.attempt == 1 && run.at == Presigning))
    && Foremost(run, s')
  }

  lemma PumpedInTurn(s: State, e: Event, s1: State, s': State)
    requires Asks(s, e, s1) && Starts(s1, s')
    ensures forall r :: r in s'.runs && r !in s.runs ==> r >= s.nextRun && InTurn(s, e, s'.runs[r], s')
  {
    hide Dequeued, AsksFor, Ledger;
    forall r | r in s'.runs && r !in s.runs
      ensures InTurn(s, e, s'.runs[r], s')
    {
      assert StartedRun(s1, s'.runs[r]);
    }
  }

  ghost predicate MovesNoRun(s: State, e: Event, s': State) {
    && (forall r :: r in s.runs ==> r in s'.runs && s'.runs[r] == s.runs[r])
    && (forall r :: r in s'.runs && r !in s.runs ==> r >= s.nextRun && InTurn(s, e, s'.runs[r], s'))
    && (forall id :: IsQueued(s, id) && !IsQueued(s', id) && e != Cancel(id) ==> id in s'.tasks && Dequeued(s, s', id))
    && s.nextRun <= s'.nextRun
    && s'.order == (if e.Add? then s.order + [|s.order|] else s.order)
    && s'.files == (if e.Add? then s.files[|s.order| := e.file] else s.files)
  }

  /** A call of the page starts runs in turn, and moves none. */
  lemma CallsMoveNoRun(s: State, e: Event)
    requires Inv(s) && !e.Settle?
    ensures MovesNoRun(s, e, Step(s, e))
  {
    InvHasLedger(s);
    hide Inv, Ledger, Pump, SettleIdle, MovesNoRun, Asks;
    match e
    case Add(file) =>
      if file.rejected {
        RefusedMovesNone(s, file);
      } else {
        AddAsks(s, file);
        AskedMoves(s, e, Added(s, file));
      }
    case Cancel(id) => CancelMovesNone(s, id);
    case Retry(id) =>
      if AsksFor(s, e, id) {
        RetryAsks(s, id);
        AskedMoves(s, e, s.(tasks := s.tasks[id := Task(Queued, 0)]));
      } else {
        StillMovesNone(s, e, s);
        if id in s.tasks && (s.tasks[id].status == Failed || s.tasks[id].status == Cancelled) { FailedMovesNone(s, id); }
      }
    case Idle => StillMovesNone(s, e, AwaitIdle(s));
  }

  lemma StillMovesNone(s: State, e: Event, s': State)
    requires !e.Add? && s'.runs == s.runs && s'.nextRun == s.nextRun && s'.order == s.order && s'.files == s.files
    requires forall id: TaskId :: IsQueued(s, id) && e != Cancel(id) ==> IsQueued(s', id)
    ensures MovesNoRun(s, e, s')
  {
  }

  lemma FailedMovesNone(s: State, id: TaskId)
    requires id in s.tasks && (s.tasks[id].status == Failed || s.tasks[id].status == Cancelled)
    ensures MovesNoRun(s, Retry(id), WithStatus(s, id, Failed))
  {
    hide MovesNoRun;
    StillMovesNone(s, Retry(id), WithStatus(s, id, Failed));
  }

  lemma RefusedMovesNone(s: State, file: File)
    requires file.rejected && Ledger(s)
    ensures MovesNoRun(s, Add(file), Added(s, file))
  {
    forall id | IsQueued(s, id)
      ensures IsQueued(Added(s, file), id)
    {
      TaskIsListed(s, id);
    }
    hide Ledger;
  }

  function Added(s: State, file: File): State {
    var id := |s.order|;
    s.(order := s.order + [id], files := s.files[id := file],
       tasks := s.tasks[id := Task(if file.rejected then Failed else Queued, 0)])
  }

  lemma AddAsks(s: State, file: File)
    requires Ledger(s) && !file.rejected
    ensures Asks(s, Add(file), Added(s, file))
  {
    AddKeepsLedger(s, file, Added(s, file));
    hide Ledger;
  }

  lemma RetryAsks(s: State, id: TaskId)
    requires Ledger(s) && AsksFor(s, Retry(id), id)
    ensures Asks(s, Retry(id), s.(tasks := s.tasks[id := Task(Queued, 0)]))
  {
    RetaskKeepsLedger(s, id, Task(Queued, 0));
    hide Ledger;
  }

  lemma PumpedDequeues(s: State, e: Event, s1: State, s': State, id: TaskId)
    requires Asks(s, e, s1) && Starts(s1, s') && IsQueued(s, id) && !IsQueued(s', id)
    ensures id in s'.tasks && Dequeued(s, s', id)
  {
    hide Ledger, StartedRun;
    assert IsQueued(s1, id) && !AsksFor(s, e, id);
    assert Dequeued(s1, s', id);
  }

  lemma AskedMoves(s: State, e: Event, s1: State)
    requires Asks(s, e, s1)
    ensures MovesNoRun(s, e, Pump(s1))
  {
    hide Ledger, Pump, InTurn, Dequeued, AsksFor, StartedRun;
    PumpStarts(s1);
    PumpedInTurn(s, e, s1, Pump(s1));
    forall id | IsQueued(s, id) && !IsQueued(Pump(s1), id)
      ensures id in Pump(s1).tasks && Dequeued(s, Pump(s1), id)
    {
      PumpedDequeues(s, e, s1, Pump(s1), id);
    }
    hide Starts;
  }

  lemma CancelMovesNone(s: State, id: TaskId)
    ensures MovesNoRun(s, Cancel(id), CancelTask(s, id))
  {
    hide MovesNoRun, SettleIdle;
    if id in s.tasks {
      var s1 := if id in s.controllers then s.(aborted := s.aborted + {s.controllers[id]}) else s;
      CancelledAs(s, s1, id);
      SettledAs(WithStatus(s1, id, Cancelled));
      StillMovesNone(s, Cancel(id), CancelTask(s, id));
    } else {
      StillMovesNone(s, Cancel(id), s);
    }
  }

  lemma CancelledAs(s: State, s1: State, id: TaskId)
    requires s1 == s.(aborted := s1.aborted) && id in s.tasks
    ensures var s2 := WithStatus(s1, id, Cancelled);
      && s2.runs == s.runs && s2.nextRun == s.nextRun && s2.order == s.order && s2.files == s.files
      && forall other: TaskId :: IsQueued(s, other) && other != id ==> IsQueued(s2, other)
  {
  }

  lemma SettledAs(s: State)
    ensures SettleIdle(s) == s.(resolved := SettleIdle(s).resolved, waiters := SettleIdle(s).waiters)
    ensures forall id: TaskId :: IsQueued(s, id) ==> IsQueued(SettleIdle(s), id)
  {
  }

  // ---------------------------------------------------------------- what an attempt went through

  datatype Word = Word(at: Await, with: Settlement)

  /** What run `r` has been told in its present attempt, in order. */
  function Told(s: State, events: seq<Event>, r: RunId): seq<Word> {
    if events == [] then []
    else
      var n := |events| - 1;
      var before, told := Trace(s, events[..n]), Told(s, events[..n], r);
      if !Due(before, events[n]) || events[n].run != r then told
      else if before.runs[r].at == Sleeping then []
      else told + [Word(before.runs[r].at, events[n].with)]
  }

  /** The first `k` of `n` chunks read, one after the other. */
  function Read(n: nat, k: nat): seq<Word>
    requires k <= n
  {
    if k == 0 then [] else Read(n, k - 1) + [Word(Reading(n - k), Fulfilled)]
  }

  /** An upload address was given out and every chunk read. */
  function Hashed(n: nat): seq<Word> {
    [Word(Presigning, Single)] + Read(n, n)
  }

  /** ... and the bytes were put. */
  function Sent(n: nat): seq<Word> {
    Hashed(n) + [Word(Putting, Fulfilled)]
  }

  /** What a run at `at`, of a file of `n` chunks, must have been told. */
  ghost predicate Fits(n: nat, at: Await, told: seq<Word>) {
    match at
    case Presigning => told == []
    case Reading(left) => left < n && told == [Word(Presigning, Single)] + Read(n, n - 1 - left)
    case Putting => told == Hashed(n)
    case Finishing => told == Sent(n)
    case Sleeping => told != [] && told[|told| - 1].with == Rejected
  }

  lemma NextWord(n: nat, run: Run, aborted: bool, max: nat, with: Settlement, after: Run, told: seq<Word>)
    requires Fits(n, run.at, told) && Answers(run.at, with) && GoesOn(run, aborted, n, max, with, after)
    ensures Fits(n, after.at, if run.at == Sleeping then [] else told + [Word(run.at, with)])
  {
    match after.at
    case Reading(left) =>
      if run.at == Reading(left + 1) {
        assert [Word(Presigning, Single)] + Read(n, n - 2 - left) + [Word(Reading(left + 1), Fulfilled)] ==
          [Word(Presigning, Single)] + (Read(n, n - 2 - left) + [Word(Reading(left + 1), Fulfilled)]);
      } else {
        assert Read(n, 0) == [];
      }
    case Putting =>
      if run.at == Reading(0) {
        assert [Word(Presigning, Single)] + Read(n, n - 1) + [Word(Reading(0), Fulfilled)] ==
          [Word(Presigning, Single)] + (Read(n, n - 1) + [Word(Reading(0), Fulfilled)]);
      } else {
        assert told + [Word(Presigning, Single)] == [Word(Presigning, Single)] + Read(n, 0);
      }
    case _ =>
  }

  /** Each live run was told what its await asks for, and numbers not given out were told nothing. */
  ghost predicate ToldRight(s: State, events: seq<Event>) {
    var now := Trace(s, events);
    forall r: RunId :: ToldFits(now, r, Told(s, events, r))
  }

  ghost predicate ToldFits(now: State, r: RunId, told: seq<Word>) {
    && (r in now.runs ==> Fits(Chunks(now, now.runs[r].task), now.runs[r].at, told))
    && (r >= now.nextRun ==> told == [])
  }

  lemma KeepsFitting(s: State, e: Event, r: RunId, told: seq<Word>)
    requires Inv(s) && ToldFits(s, r, told) && (Due(s, e) ==> e.run != r)
    ensures ToldFits(Step(s, e), r, told)
  {
    InvHasLedger(s);
    if Due(s, e) {
      SettlementKeepsFitting(s, e.run, e.with, r, told);
    } else if e.Settle? {
      NotDue(s, e);
    } else {
      CallKeepsFitting(s, e, r, told);
    }
  }

  lemma SameChunks(s: State, s': State, r: RunId)
    requires Ledger(s) && r in s.runs
    requires forall id :: id in s.files ==> id in s'.files && s'.files[id] == s.files[id]
    ensures Chunks(s', s.runs[r].task) == Chunks(s, s.runs[r].task)
  {
    RunIsNumbered(s, r);
    hide Ledger;
  }

  lemma CallKeepsFitting(s: State, e: Event, r: RunId, told: seq<Word>)
    requires Inv(s) && !e.Settle? && ToldFits(s, r, told)
    ensures ToldFits(Step(s, e), r, told)
  {
    InvHasLedger(s);
    CallsMoveNoRun(s, e);
    hide Inv, Ledger, Step, Fits, Chunks;
    var s' := Step(s, e);
    if r in s.runs {
      SameChunks(s, s', r);
    } else if r in s'.runs {
      NothingTold(Chunks(s', s'.runs[r].task));
    }
  }

  lemma NothingTold(n: nat)
    ensures Fits(n, Presigning, [])
  {
  }

  lemma SettlementKeepsFitting(s: State, q: RunId, with: Settlement, r: RunId, told: seq<Word>)
    requires Inv(s) && Due(s, Settle(q, with)) && ToldFits(s, r, told) && q != r
    ensures ToldFits(Step(s, Settle(q, with)), r, told)
  {
    InvHasLedger(s);
    EverySettlementTells(s, q, with);
    hide Inv, Ledger, Step, Fits, Chunks, Tells;
    var s' := Step(s, Settle(q, with));
    if r in s.runs {
      SameChunks(s, s', r);
    } else if r in s'.runs {
      NothingTold(Chunks(s', s'.runs[r].task));
    }
  }

  lemma StepKeepsToldRight(s: State, events: seq<Event>)
    requires events != [] && Inv(Trace(s, events[..|events| - 1])) && ToldRight(s, events[..|events| - 1])
    ensures ToldRight(s, events)
  {
    var n := |events| - 1;
    var before, e := Trace(s, events[..n]), events[n];
    hide Inv, Step, ToldFits, Due;
    forall r: RunId
      ensures ToldFits(Trace(s, events), r, Told(s, events, r))
    {
      assert ToldFits(before, r, Told(s, events[..n], r));
      if Due(before, e) && e.run == r {
        SettlementTellsRun(before, r, e.with, Told(s, events[..n], r));
      } else {
        KeepsFitting(before, e, r, Told(s, events[..n], r));
      }
    }
  }

  lemma SettlementTellsRun(s: State, r: RunId, with: Settlement, told: seq<Word>)
    requires Inv(s) && Due(s, Settle(r, with)) && ToldFits(s, r, told)
    ensures ToldFits(Step(s, Settle(r, with)), r, if s.runs[r].at == Sleeping then [] else told + [Word(s.runs[r].at, with)])
  {
    InvHasLedger(s);
    RunIsNumbered(s, r);
    EverySettlementTells(s, r, with);
    hide Inv, Ledger, Step, Fits, GoesOn, Shows, Ends;
    var s' := Step(s, Settle(r, with));
    var n := Chunks(s, s.runs[r].task);
    if r in s'.runs {
      NextWord(n, s.runs[r], r in s.aborted, s.maxAttempts, with, s'.runs[r], told);
      TaskGoesOn(s, r, with, s');
    }
  }

  lemma TaskGoesOn(s: State, r: RunId, with: Settlement, s': State)
    requires r in s.runs && r in s'.runs && Tells(s, r, with, s') && Others(s, r, s')
    ensures Chunks(s', s'.runs[r].task) == Chunks(s, s.runs[r].task)
  {
    hide Shows, Ends;
  }

  lemma {:induction false} EveryRunIsToldRight(concurrency: nat, maxAttempts: nat, events: seq<Event>)
    requires maxAttempts >= 1
    ensures ToldRight(Initial(concurrency, maxAttempts), events)
    decreases |events|
  {
    hide Inv, ToldFits, Initial;
    if events == [] {
      NobodyTold(concurrency, maxAttempts);
    } else {
      EveryInterleaving(concurrency, maxAttempts, events[..|events| - 1]);
      EveryRunIsToldRight(concurrency, maxAttempts, events[..|events| - 1]);
      StepKeepsToldRight(Initial(concurrency, maxAttempts), events);
    }
  }

  lemma NobodyTold(concurrency: nat, maxAttempts: nat)
    ensures ToldRight(Initial(concurrency, maxAttempts), [])
  {
  }

  // ---------------------------------------------------------------- files and their chunks

  /** The files the page added, in order. */
  function FilesOf(events: seq<Event>): seq<File> {
    if events == [] then []
    else
      var n := |events| - 1;
      FilesOf(events[..n]) + if events[n].Add? then [events[n].file] else []
  }

  lemma {:induction false} FilesAreAsAdded(concurrency: nat, maxAttempts: nat, events: seq<Event>)
    requires maxAttempts >= 1
    ensures var s, files := Trace(Initial(concurrency, maxAttempts), events), FilesOf(events);
      |s.order| == |files| && forall id :: 0 <= id < |files| ==> id in s.files && s.files[id] == files[id]
    decreases |events|
  {
    hide Inv, Step;
    if events != [] {
      var n := |events| - 1;
      var s := Trace(Initial(concurrency, maxAttempts), events[..n]);
      FilesAreAsAdded(concurrency, maxAttempts, events[..n]);
      EveryInterleaving(concurrency, maxAttempts, events[..n]);
      StepFiles(s, events[n]);
    }
  }

  lemma StepFiles(s: State, e: Event)
    requires Inv(s)
    ensures Step(s, e).order == (if e.Add? then s.order + [|s.order|] else s.order)
    ensures Step(s, e).files == (if e.Add? then s.files[|s.order| := e.file] else s.files)
  {
    hide Inv, Step, Tells;
    if Due(s, e) {
      EverySettlementTells(s, e.run, e.with);
    } else if e.Settle? {
      NotDue(s, e);
    } else {
      CallsMoveNoRun(s, e);
    }
  }

  // ---------------------------------------------------------------- done means sent

  /** Whenever a task comes to be done, the server has just said that it has the file already, or that it is ready;
    * and then, in the attempt that was told so, the address was given out, the file read chunk by chunk to its end,
    * and put.
    */
  lemma DoneMeansSent(concurrency: nat, maxAttempts: nat, events: seq<Event>, e: Event, t: TaskId)
    requires maxAttempts >= 1
    requires var s := Trace(Initial(concurrency, maxAttempts), events);
      && t in s.tasks && s.tasks[t].status != Done
      && t in Step(s, e).tasks && Step(s, e).tasks[t].status == Done
    ensures var s0 := Initial(concurrency, maxAttempts);
      var s := Trace(s0, events);
      && Due(s, e) && s.runs[e.run].task == t < |FilesOf(events)|
      && ((e.with == Existing && s.runs[e.run].at == Presigning && Told(s0, events, e.run) == []) ||
          (e.with == Ready && s.runs[e.run].at == Finishing && Told(s0, events, e.run) == Sent(FilesOf(events)[t].chunks)))
  {
    var s0 := Initial(concurrency, maxAttempts);
    var s := Trace(s0, events);
    EveryInterleaving(concurrency, maxAttempts, events);
    EveryRunIsToldRight(concurrency, maxAttempts, events);
    FilesAreAsAdded(concurrency, maxAttempts, events);
    EveryStatusIsEarned(s, e, t);
    InvHasLedger(s);
    hide Inv, Step, Trace, Initial;
    assert SettlesRunOf(s, e, t);
    RunIsNumbered(s, e.run);
    hide Ledger;
    assert ToldFits(s, e.run, Told(s0, events, e.run));
  }

  // ---------------------------------------------------------------- calls take effect

  /** A valid file that is added, or a finished one tried again, waits with all its attempts, or its first one is
    * under way.
    */
  lemma AskedIsTaken(s: State, e: Event, id: TaskId)
    requires Inv(s) && AsksFor(s, e, id)
    ensures var s' := Step(s, e);
      && id in s'.tasks
      && (s'.tasks[id] == Task(Queued, 0) ||
          (s'.tasks[id] == Task(Hashing, 1) && exists r :: r in s'.runs && r !in s.runs && s'.runs[r] == Run(id, 1, Presigning)))
  {
    InvHasLedger(s);
    assert s.maxAttempts >= 1;
    hide Inv, Ledger, Pump, Asks, Dequeued;
    match e
    case Add(file) =>
      AddAsks(s, file);
      AskedStarts(s, e, Added(s, file), id);
    case Retry(t) =>
      RetryAsks(s, id);
      AskedStarts(s, e, s.(tasks := s.tasks[id := Task(Queued, 0)]), id);
  }

  lemma AskedStarts(s: State, e: Event, s1: State, id: TaskId)
    requires Asks(s, e, s1) && AsksFor(s, e, id) && s.maxAttempts >= 1
    ensures var s' := Pump(s1);
      && id in s'.tasks
      && (s'.tasks[id] == Task(Queued, 0) ||
          (s'.tasks[id] == Task(Hashing, 1) && exists r :: r in s'.runs && r !in s.runs && s'.runs[r] == Run(id, 1, Presigning)))
  {
    hide Ledger, Pump, AsksFor;
    PumpStarts(s1);
    var s' := Pump(s1);
    assert IsQueued(s1, id) && s1.tasks[id] == Task(Queued, 0);
    if !IsQueued(s', id) {
      assert Dequeued(s1, s', id);
      var r :| r in s'.runs && r !in s1.runs && s'.runs[r].task == id;
      assert StartedRun(s1, s'.runs[r]);
      assert s'.runs[r] == Run(id, 1, Presigning);
    }
  }

  // ---------------------------------------------------------------- every waiter is told

  /** The promises of idleness given out so far, kept or not. */
  function Promised(s: State): multiset<nat> {
    multiset(s.waiters) + multiset(s.resolved)
  }

  lemma {:induction false} ReverseKeeps(list: seq<nat>)
    ensures multiset(Reverse(list)) == multiset(list)
  {
    if list != [] {
      var n := |list| - 1;
      ReverseKeeps(list[..n]);
      assert list == list[..n] + [list[n]];
    }
  }

  ghost predicate KeepsPromises(s: State, s': State) {
    && Promised(s') == Promised(s) && s'.nextWaiter == s.nextWaiter
    && s.resolved <= s'.resolved
  }

  lemma SettleKeepsPromises(s: State)
    ensures KeepsPromises(s, SettleIdle(s))
  {
    ReverseKeeps(s.waiters);
    hide Reverse, Busy;
  }

  lemma KeepsTwice(a: State, b: State, c: State)
    requires KeepsPromises(a, b) && KeepsPromises(b, c)
    ensures KeepsPromises(a, c)
  {
    hide Promised;
  }

  /** Nothing that concerns the waiters differs. */
  lemma SamePromises(s: State, s': State)
    requires s'.waiters == s.waiters && s'.resolved == s.resolved && s'.nextWaiter == s.nextWaiter
    ensures KeepsPromises(s, s')
  {
  }

  lemma {:induction false} PumpKeepsPromises(s: State)
    ensures KeepsPromises(s, Pump(s))
    decreases |QueuedSet(s)|
  {
    hide KeepsPromises, SettleIdle, FirstQueued, QueuedSet;
    PumpStops(s);
    SamePromises(s, s);
    var next := FirstQueued(s, s.order);
    if s.running < s.concurrency && next.Some? {
      var id := next.value;
      FirstQueuedIsQueued(s, s.order);
      PumpUnfolds(s, id);
      LaunchQueue(s, id, s.tasks[id].attempts + 1);
      SkipQueue(s, id);
      if s.tasks[id].attempts + 1 <= s.maxAttempts {
        var s1 := Launch(s, id, s.tasks[id].attempts + 1);
        SamePromises(s, s1);
        PumpKeepsPromises(s1);
        KeepsTwice(s, s1, Pump(s1));
      } else {
        SkipKeepsPromises(s, id);
        var s2 := Pump(Skip(s, id));
        PumpKeepsPromises(Skip(s, id));
        KeepsTwice(s, Skip(s, id), s2);
        SettleKeepsPromises(s2);
        SettledQueue(s2);
        KeepsTwice(s, s2, SettleIdle(s2));
        PumpKeepsPromises(SettleIdle(s2));
        KeepsTwice(s, SettleIdle(s2), Pump(SettleIdle(s2)));
      }
    }
  }

  lemma SkipKeepsPromises(s: State, id: TaskId)
    ensures KeepsPromises(s, Skip(s, id))
  {
    SamePromises(s, Skip(s, id));
    hide KeepsPromises;
  }

  lemma FinishKeepsPromises(s: State, r: RunId)
    ensures KeepsPromises(s, Finish(s, r))
  {
    hide KeepsPromises, Pump, SettleIdle;
    SamePromises(s, s);
    if r in s.runs {
      var s1 := Removed(s, r);
      SamePromises(s, s1);
      PumpKeepsPromises(s1);
      SettleKeepsPromises(Pump(s1));
      KeepsTwice(s, s1, Pump(s1));
      KeepsTwice(s, Pump(s1), SettleIdle(Pump(s1)));
    }
  }

  lemma EndKeepsPromises(s: State, r: RunId, t: TaskId, status: Status)
    ensures KeepsPromises(s, Finish(WithStatus(s, t, status), r))
  {
    SamePromises(s, WithStatus(s, t, status));
    FinishKeepsPromises(WithStatus(s, t, status), r);
    hide Finish, KeepsPromises, WithStatus;
    KeepsTwice(s, WithStatus(s, t, status), Finish(WithStatus(s, t, status), r));
  }

  lemma MoveKeepsPromises(s: State, r: RunId, t: TaskId, status: Status, at: Await)
    ensures KeepsPromises(s, At(WithStatus(s, t, status), r, at)) && KeepsPromises(s, At(s, r, at))
  {
    SamePromises(s, At(s, r, at));
    SamePromises(s, At(WithStatus(s, t, status), r, at));
    hide KeepsPromises;
  }

  lemma CatchKeepsPromises(s: State, r: RunId)
    ensures KeepsPromises(s, Catch(s, r))
  {
    hide KeepsPromises, Finish, At, WithStatus;
    SamePromises(s, s);
    if r in s.runs {
      var t := s.runs[r].task;
      EndKeepsPromises(s, r, t, Cancelled);
      EndKeepsPromises(s, r, t, Failed);
      MoveKeepsPromises(s, r, t, Queued, Sleeping);
    }
  }

  lemma ChunkKeepsPromises(s: State, r: RunId, left: nat)
    ensures KeepsPromises(s, NextChunk(s, r, left))
  {
    hide KeepsPromises, Catch, At, WithStatus;
    SamePromises(s, s);
    CatchKeepsPromises(s, r);
    if r in s.runs {
      MoveKeepsPromises(s, r, s.runs[r].task, Uploading, Putting);
      if left > 0 { MoveKeepsPromises(s, r, s.runs[r].task, Uploading, Reading(left - 1)); }
    }
  }

  lemma WakeKeepsPromises(s: State, r: RunId)
    ensures KeepsPromises(s, NextAttempt(s, r))
  {
    hide KeepsPromises, Finish;
    FinishKeepsPromises(s, r);
    SamePromises(s, s);
    if r in s.runs && s.runs[r].attempt + 1 <= s.maxAttempts {
      SamePromises(s, NextAttempt(s, r));
    }
  }

  lemma ContinueKeepsPromises(s: State, r: RunId, with: Settlement)
    ensures KeepsPromises(s, Continue(s, r, with))
  {
    hide KeepsPromises, Catch, NextChunk, NextAttempt, WithStatus, At, Chunks, Finish;
    SamePromises(s, s);
    if r in s.runs {
      var t := s.runs[r].task;
      EndKeepsPromises(s, r, t, Done);
      EndKeepsPromises(s, r, t, Failed);
      MoveKeepsPromises(s, r, t, Completing, Finishing);
      ChunkKeepsPromises(s, r, Chunks(s, t));
      if s.runs[r].at.Reading? { ChunkKeepsPromises(s, r, s.runs[r].at.left); }
      WakeKeepsPromises(s, r);
      CatchKeepsPromises(s, r);
    }
  }

  /** Only a call of `idle` gives out a promise, with the next number; no step takes one back, and one kept stays
    * kept.
    */
  lemma StepKeepsPromises(s: State, e: Event)
    ensures e != Idle ==> KeepsPromises(s, Step(s, e))
    ensures e == Idle ==> Promises(s, Step(s, e))
  {
    hide Pump, SettleIdle, Continue, KeepsPromises, Promises;
    SamePromises(s, s);
    match e
    case Add(file) =>
      SamePromises(s, Added(s, file));
      PumpKeepsPromises(Added(s, file));
      KeepsTwice(s, Added(s, file), Pump(Added(s, file)));
    case Cancel(id) => CancelKeepsPromises(s, id);
    case Retry(id) =>
      var s1 := s.(tasks := s.tasks[id := Task(Queued, 0)]);
      SamePromises(s, s1);
      SamePromises(s, WithStatus(s, id, Failed));
      PumpKeepsPromises(s1);
      KeepsTwice(s, s1, Pump(s1));
    case Idle => IdlePromises(s);
    case Settle(r, with) => ContinueKeepsPromises(s, r, with);
  }

  lemma CancelKeepsPromises(s: State, id: TaskId)
    ensures KeepsPromises(s, CancelTask(s, id))
  {
    hide KeepsPromises, SettleIdle;
    SamePromises(s, s);
    if id in s.tasks {
      var s1 := if id in s.controllers then s.(aborted := s.aborted + {s.controllers[id]}) else s;
      var s2 := WithStatus(s1, id, Cancelled);
      SamePromises(s, s2);
      SettleKeepsPromises(s2);
      KeepsTwice(s, s2, SettleIdle(s2));
    }
  }

  /** One promise more, with the next number, kept at once or waited for. */
  ghost predicate Promises(s: State, s': State) {
    && Promised(s') == Promised(s) + multiset{s.nextWaiter} && s'.nextWaiter == s.nextWaiter + 1
    && s.resolved <= s'.resolved
  }

  lemma IdlePromises(s: State)
    ensures Promises(s, AwaitIdle(s))
  {
    hide FirstQueued;
  }

  /** The numbers below `n`, once each. */
  function Below(n: nat): multiset<nat> {
    if n == 0 then multiset{} else Below(n - 1) + multiset{n - 1}
  }

  /** Every promise of idleness ever given out is either still waited for or was kept, once; and when the queue is
    * idle all of them were kept.
    */
  lemma {:induction false} EveryPromiseIsKept(concurrency: nat, maxAttempts: nat, events: seq<Event>)
    requires maxAttempts >= 1
    ensures var s := Trace(Initial(concurrency, maxAttempts), events);
      && Promised(s) == Below(s.nextWaiter)
      && (!Busy(s) ==> multiset(s.resolved) == Below(s.nextWaiter))
    decreases |events|
  {
    hide Inv, Step, Busy, Initial, Promised;
    if events == [] {
      NothingPromised(concurrency, maxAttempts);
    } else {
      var n := |events| - 1;
      EveryPromiseIsKept(concurrency, maxAttempts, events[..n]);
      StepKeepsPromises(Trace(Initial(concurrency, maxAttempts), events[..n]), events[n]);
    }
    EveryInterleaving(concurrency, maxAttempts, events);
    IdlePromisesAreKept(Trace(Initial(concurrency, maxAttempts), events));
  }

  lemma IdlePromisesAreKept(s: State)
    requires Inv(s)
    ensures !Busy(s) ==> multiset(s.resolved) == Promised(s)
  {
    hide Inv, Busy;
    if !Busy(s) { IdleIsFinished(s); }
  }

  lemma NothingPromised(concurrency: nat, maxAttempts: nat)
    ensures var s := Initial(concurrency, maxAttempts); Promised(s) == Below(s.nextWaiter) && s.nextWaiter == 0
  {
  }
}
