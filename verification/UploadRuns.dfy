/** Whole runs of the upload queue in which a file never gets anywhere, or comes back after a cancel. */
module UploadRuns {
  import opened Options
  import opened UploadQueue
  import opened UploadDrain

  /** The page adds a file that validation lets through, and then whatever comes. */
  function AfterAdding(concurrency: nat, maxAttempts: nat, file: File, events: seq<Event>): State {
    Trace(Initial(concurrency, maxAttempts), [Add(file)] + events)
  }

  lemma AddedFirst(concurrency: nat, maxAttempts: nat, file: File)
    ensures AfterAdding(concurrency, maxAttempts, file, []) == AddFile(Initial(concurrency, maxAttempts), file)
  {
    OneStep(Initial(concurrency, maxAttempts), Add(file));
    assert [Add(file)] + [] == [Add(file)];
  }

  lemma OneMore(concurrency: nat, maxAttempts: nat, file: File, events: seq<Event>)
    requires events != []
    ensures var n := |events| - 1;
      AfterAdding(concurrency, maxAttempts, file, events) ==
        Step(AfterAdding(concurrency, maxAttempts, file, events[..n]), events[n])
  {
    var n, all := |events| - 1, [Add(file)] + events;
    assert all[..n + 1] == [Add(file)] + events[..n] && all[n + 1] == events[n];
  }

  ghost predicate NeverCancels(events: seq<Event>, t: TaskId) {
    forall i :: 0 <= i < |events| ==> events[i] != Cancel(t)
  }

  // ---------------------------------------------------------------- no slot

  /** The first task is queued, nothing runs, nothing can, and no promise of idleness was ever kept. */
  ghost predicate Stalled(s: State) {
    && s.concurrency == 0 && s.running == 0 && s.runs == map[]
    && s.order != [] && s.order[0] == 0 && IsQueued(s, 0)
    && s.resolved == []
  }

  lemma StalledStays(s: State, e: Event)
    requires Stalled(s) && e != Cancel(0)
    ensures Stalled(Step(s, e))
  {
    assert FirstQueued(s, s.order) == Some(0);
    match e
    case Add(file) => assert (s.order + [|s.order|])[0] == 0;
    case Cancel(id) => CancelStalled(s, id);
    case Retry(id) =>
    case Idle =>
    case Settle(r, with) =>
  }

  lemma CancelStalled(s: State, id: TaskId)
    requires Stalled(s) && id != 0
    ensures Stalled(CancelTask(s, id))
  {
    if id in s.tasks {
      var s1 := if id in s.controllers then s.(aborted := s.aborted + {s.controllers[id]}) else s;
      assert Stalled(WithStatus(s1, id, Cancelled));
      assert Busy(WithStatus(s1, id, Cancelled));
    }
  }

  lemma {:induction false} AlwaysStalled(maxAttempts: nat, file: File, events: seq<Event>)
    requires !file.rejected && NeverCancels(events, 0)
    ensures Stalled(AfterAdding(0, maxAttempts, file, events))
    decreases |events|
  {
    if events == [] {
      AddedFirst(0, maxAttempts, file);
      assert AddFile(Initial(0, maxAttempts), file).order == [0];
    } else {
      AlwaysStalled(maxAttempts, file, events[..|events| - 1]);
      OneMore(0, maxAttempts, file, events);
      hide Stalled, Step, AfterAdding;
      StalledStays(AfterAdding(0, maxAttempts, file, events[..|events| - 1]), events[|events| - 1]);
    }
  }

  /** With no slot at all a valid file that is never cancelled waits for ever, and so does whoever awaits idleness. */
  lemma NoSlotNoProgress(maxAttempts: nat, file: File, events: seq<Event>)
    requires !file.rejected && NeverCancels(events, 0)
    ensures var s := AfterAdding(0, maxAttempts, file, events);
      IsQueued(s, 0) && s.running == 0 && s.runs == map[] && s.resolved == []
  {
    AlwaysStalled(maxAttempts, file, events);
  }

  // ---------------------------------------------------------------- no attempt

  /** The first task shows as hashing although nothing runs. */
  ghost predicate Stuck(s: State) {
    && s.maxAttempts == 0 && s.running == 0 && s.runs == map[]
    && s.order != [] && s.order[0] == 0 && 0 in s.tasks && s.tasks[0].status == Hashing
  }

  lemma {:induction false} PumpStuck(s: State)
    requires Stuck(s)
    ensures Stuck(Pump(s))
    decreases |QueuedSet(s)|
  {
    hide QueuedSet, Busy;
    var next := FirstQueued(s, s.order);
    if s.running < s.concurrency && next.Some? {
      FirstQueuedIsQueued(s, s.order);
      var s1 := Skip(s, next.value);
      SkipQueue(s, next.value);
      assert Stuck(s1);
      PumpStuck(s1);
      SettledQueue(Pump(s1));
      assert Stuck(SettleIdle(Pump(s1)));
      PumpStuck(SettleIdle(Pump(s1)));
      PumpUnfolds(s, next.value);
    }
  }

  lemma StuckStays(s: State, e: Event)
    requires Stuck(s) && e != Cancel(0)
    ensures Stuck(Step(s, e))
  {
    hide Pump;
    match e
    case Add(file) =>
      var id := |s.order|;
      var s1 := s.(order := s.order + [id], files := s.files[id := file],
                   tasks := s.tasks[id := Task(if file.rejected then Failed else Queued, 0)]);
      assert s1.order[0] == 0 && Stuck(s1);
      PumpStuck(s1);
    case Cancel(id) =>
    case Retry(id) => if id != 0 { PumpStuck(s.(tasks := s.tasks[id := Task(Queued, 0)])); }
    case Idle =>
    case Settle(r, with) =>
  }

  lemma FirstIsSkipped(concurrency: nat, file: File)
    requires concurrency >= 1 && !file.rejected
    ensures Stuck(AddFile(Initial(concurrency, 0), file))
  {
    var s0 := Initial(concurrency, 0);
    var s := s0.(order := [0], files := map[0 := file], tasks := map[0 := Task(Queued, 0)]);
    assert s0.order + [0] == [0] && s0.files[0 := file] == s.files && s0.tasks[0 := Task(Queued, 0)] == s.tasks;
    assert FirstQueued(s, [0]) == Some(0);
    PumpUnfolds(s, 0);
    hide Pump;
    assert Stuck(Skip(s, 0));
    PumpStuck(Skip(s, 0));
    PumpStuck(SettleIdle(Pump(Skip(s, 0))));
  }

  lemma {:induction false} AlwaysStuck(concurrency: nat, file: File, events: seq<Event>)
    requires concurrency >= 1 && !file.rejected && NeverCancels(events, 0)
    ensures Stuck(AfterAdding(concurrency, 0, file, events))
    decreases |events|
  {
    hide Stuck, Step, AfterAdding;
    if events == [] {
      AddedFirst(concurrency, 0, file);
      FirstIsSkipped(concurrency, file);
    } else {
      AlwaysStuck(concurrency, file, events[..|events| - 1]);
      OneMore(concurrency, 0, file, events);
      StuckStays(AfterAdding(concurrency, 0, file, events[..|events| - 1]), events[|events| - 1]);
    }
  }

  /** With no attempt allowed, a valid file that is never cancelled shows as hashing for ever although nothing runs. */
  lemma NoAttemptGetsStuck(concurrency: nat, file: File, events: seq<Event>)
    requires concurrency >= 1 && !file.rejected && NeverCancels(events, 0)
    ensures var s := AfterAdding(concurrency, 0, file, events);
      0 in s.tasks && s.tasks[0].status == Hashing && s.running == 0 && s.runs == map[]
  {
    AlwaysStuck(concurrency, file, events);
  }

  // ---------------------------------------------------------------- a cancel that is not final

  /** A cancel while the server is asked for the upload address does not last: an answer that the file is already there
    * makes the task done.
    */
  lemma CancelMayNotBeFinal(concurrency: nat, maxAttempts: nat, file: File)
    requires concurrency >= 1 && maxAttempts >= 1 && !file.rejected
    ensures var s := Trace(Initial(concurrency, maxAttempts), [Add(file), Cancel(0)]);
      && 0 in s.tasks && s.tasks[0].status == Cancelled && s.controllers == map[0 := 0] && 0 in s.aborted
      && !CancelledForGood(s, 0)
      && 0 in Trace(s, [Settle(0, Existing)]).tasks && Trace(s, [Settle(0, Existing)]).tasks[0].status == Done
  {
    var s0, e1, e2 := Initial(concurrency, maxAttempts), Add(file), Cancel(0);
    var s1 := Step(s0, e1);
    FirstIsLaunched(concurrency, maxAttempts, file);
    CancelsLaunched(s1);
    TraceCons(s0, e1, [e2]);
    OneStep(s1, e2);
    assert [e1] + [e2] == [e1, e2];
    EveryInterleaving(concurrency, maxAttempts, [e1, e2]);
    var s2 := Step(s1, e2);
    assert 0 in s2.runs && s2.runs[0].task == 0 && !Doomed(s2, 0);
    assert !CancelledForGood(s2, 0);
    hide Inv, Step, Trace, CancelledForGood;
    ExistingRevives(s2);
  }

  lemma CancelsLaunched(s: State)
    requires s.tasks == map[0 := Task(Hashing, 1)] && s.runs == map[0 := Run(0, 1, Presigning)]
    requires s.controllers == map[0 := 0] && s.order == [0] && s.running == 1
    ensures var s' := Step(s, Cancel(0));
      && 0 in s'.tasks && s'.tasks[0].status == Cancelled && s'.controllers == map[0 := 0] && 0 in s'.aborted
      && s'.runs == s.runs
  {
  }

  lemma ExistingRevives(s: State)
    requires Inv(s) && s.runs == map[0 := Run(0, 1, Presigning)] && 0 in s.tasks
    ensures 0 in Trace(s, [Settle(0, Existing)]).tasks && Trace(s, [Settle(0, Existing)]).tasks[0].status == Done
  {
    assert 0 in s.runs && s.runs[0].task == 0;
    hide Inv, Finish, Trace, Step;
    OneStep(s, Settle(0, Existing));
    ExistingFinishes(s);
    EndedStatus(s, 0, Done);
  }

  lemma ExistingFinishes(s: State)
    requires 0 in s.runs && s.runs[0] == Run(0, 1, Presigning)
    ensures Step(s, Settle(0, Existing)) == Finish(WithStatus(s, 0, Done), 0)
  {
    hide Finish, Catch, NextChunk, WithStatus;
  }

  lemma FirstIsLaunched(concurrency: nat, maxAttempts: nat, file: File)
    requires concurrency >= 1 && maxAttempts >= 1 && !file.rejected
    ensures var s := Step(Initial(concurrency, maxAttempts), Add(file));
      && s.tasks == map[0 := Task(Hashing, 1)] && s.runs == map[0 := Run(0, 1, Presigning)]
      && s.controllers == map[0 := 0] && s.order == [0] && s.running == 1
      && s.concurrency == concurrency && s.maxAttempts == maxAttempts && s.nextRun == 1 && s.aborted == {}
  {
    var s0 := Initial(concurrency, maxAttempts);
    var s := s0.(order := [0], files := map[0 := file], tasks := map[0 := Task(Queued, 0)]);
    assert s0.order + [0] == [0] && s0.files[0 := file] == s.files && s0.tasks[0 := Task(Queued, 0)] == s.tasks;
    assert FirstQueued(s, [0]) == Some(0);
    PumpUnfolds(s, 0);
    var s1 := Launch(s, 0, 1);
    assert s1.order == [0] && FirstQueued(s1, [0]) == FirstQueued(s1, []) by { assert [0][1..] == []; }
    assert Pump(s1) == s1;
  }

  // ---------------------------------------------------------------- one attempt made twice

  /** Two live runs make the same further attempt at the same file. */
  ghost predicate RetriedTwice(s: State) {
    exists q, r :: q in s.runs && r in s.runs && q != r && s.runs[q] == s.runs[r] && s.runs[q].attempt >= 2
  }

  /** Files are added and promises settle; nothing is cancelled or tried again by the page. */
  ghost predicate OnlyAdds(events: seq<Event>) {
    forall i :: 0 <= i < |events| ==> events[i].Add? || events[i].Settle?
  }

  /** The first attempt fails; while its run sleeps another file is added, and the pump takes the first file again. */
  function FailThenAdd(file: File): seq<Event> {
    [Add(file), Settle(0, Rejected), Add(file), Settle(0, Fulfilled)]
  }

  lemma {:induction false} FourSteps(s: State, a: Event, b: Event, c: Event, d: Event)
    ensures Trace(s, [a, b, c, d]) == Step(Step(Step(Step(s, a), b), c), d)
  {
    hide Step;
    assert [a, b, c, d][..3] == [a, b, c] && [a, b, c][..2] == [a, b] && [a, b][..1] == [a] && [a][..0] == [];
    assert Trace(s, [a]) == Step(s, a) by { OneStep(s, a); }
    assert Trace(s, [a, b]) == Step(Trace(s, [a]), b);
    assert Trace(s, [a, b, c]) == Step(Trace(s, [a, b]), c);
  }

  lemma RejectedSleeps(s: State)
    requires s.tasks == map[0 := Task(Hashing, 1)] && s.runs == map[0 := Run(0, 1, Presigning)]
    requires s.aborted == {} && s.maxAttempts >= 2
    ensures Step(s, Settle(0, Rejected)) ==
      s.(tasks := map[0 := Task(Queued, 1)], runs := map[0 := Run(0, 1, Sleeping)])
  {
    hide Finish;
    assert s.tasks[0 := Task(Queued, 1)] == map[0 := Task(Queued, 1)];
    assert s.runs[0 := Run(0, 1, Sleeping)] == map[0 := Run(0, 1, Sleeping)];
  }

  lemma AddingWakesPump(s: State, file: File)
    requires Inv(s) && s.order == [0] && s.tasks == map[0 := Task(Queued, 1)] && s.runs == map[0 := Run(0, 1, Sleeping)]
    requires s.running == 1 && s.nextRun == 1 && s.concurrency >= 2 && s.maxAttempts >= 2 && !file.rejected
    ensures var s' := AddFile(s, file);
      && 0 in s'.runs && s'.runs[0] == Run(0, 1, Sleeping) && 1 in s'.runs && s'.runs[1] == Run(0, 2, Presigning)
      && s'.maxAttempts == s.maxAttempts
  {
    var s1 := s.(order := s.order + [1], files := s.files[1 := file], tasks := s.tasks[1 := Task(Queued, 0)]);
    FirstOfTwo(s1);
    InvHasCore(s);
    hide Inv, Core, Pump, FirstQueued, Launch;
    AddKeepsCore(s, file, s1);
    PumpUnfolds(s1, 0);
    LaunchKeepsCore(s1, 0);
    LaunchedBeside(s1);
    PumpKeeps(Launch(s1, 0, 2));
  }

  lemma FirstOfTwo(s: State)
    requires s.order == [0] + [1] && 0 in s.tasks && s.tasks[0].status == Queued
    ensures IsQueued(s, 0) && FirstQueued(s, s.order) == Some(0)
  {
  }

  lemma InvHasCore(s: State)
    requires Inv(s)
    ensures Core(s)
  {
    hide Core;
  }

  lemma LaunchedBeside(s: State)
    requires s.runs == map[0 := Run(0, 1, Sleeping)] && s.nextRun == 1
    ensures var s' := Launch(s, 0, 2);
      && 0 in s'.runs && s'.runs[0] == Run(0, 1, Sleeping) && 1 in s'.runs && s'.runs[1] == Run(0, 2, Presigning)
      && s'.maxAttempts == s.maxAttempts
  {
  }

  lemma WakesAlongside(s: State)
    requires 0 in s.runs && s.runs[0] == Run(0, 1, Sleeping) && 1 in s.runs && s.runs[1] == Run(0, 2, Presigning)
    requires s.maxAttempts >= 2
    ensures RetriedTwice(Step(s, Settle(0, Fulfilled)))
  {
    hide Finish;
    var s' := Step(s, Settle(0, Fulfilled));
    assert s'.runs[0] == Run(0, 2, Presigning) && s'.runs[1] == Run(0, 2, Presigning);
  }

  lemma FailThenAddRetriesTwice(concurrency: nat, maxAttempts: nat, file: File)
    requires concurrency >= 2 && maxAttempts >= 2 && !file.rejected
    ensures RetriedTwice(Trace(Initial(concurrency, maxAttempts), FailThenAdd(file)))
  {
    hide Inv, Initial, Pump, RetriedTwice, Trace, Continue;
    var s0 := Initial(concurrency, maxAttempts);
    FirstIsLaunched(concurrency, maxAttempts, file);
    InitialInv(concurrency, maxAttempts);
    StepKeepsInv(s0, Add(file));
    var s1 := Step(s0, Add(file));
    RejectedSleeps(s1);
    StepKeepsInv(s1, Settle(0, Rejected));
    var s2 := Step(s1, Settle(0, Rejected));
    AddingWakesPump(s2, file);
    var s3 := AddFile(s2, file);
    WakesAlongside(s3);
    FourSteps(s0, Add(file), Settle(0, Rejected), Add(file), Settle(0, Fulfilled));
  }

  lemma RetriedTwiceNeeds(s: State)
    requires Inv(s) && RetriedTwice(s)
    ensures s.concurrency >= 2 && s.maxAttempts >= 2
  {
    LiveRunsAreBounded(s);
    var q, r :| q in s.runs && r in s.runs && q != r && s.runs[q] == s.runs[r] && s.runs[q].attempt >= 2;
    assert {q, r} <= s.runs.Keys;
    SubsetIsSmaller({q, r}, s.runs.Keys);
    assert RunOk(s, s.runs[q]);
  }

  lemma {:induction false} SubsetIsSmaller(a: set<RunId>, b: set<RunId>)
    requires a <= b
    ensures |a| <= |b|
  {
    assert b == a + (b - a);
  }

  /** Without any cancel or retry by the page, a retry of one file can be under way twice at once exactly when there
    * are two slots and two attempts: a sleeping run's file shows as queued, and the pump takes it for one that nobody
    * works on.
    */
  lemma RetriedTwiceExactlyWhen(concurrency: nat, maxAttempts: nat)
    requires maxAttempts >= 1
    ensures (exists events :: OnlyAdds(events) && RetriedTwice(Trace(Initial(concurrency, maxAttempts), events)))
      <==> concurrency >= 2 && maxAttempts >= 2
  {
    hide RetriedTwice, Trace, Inv;
    var s0 := Initial(concurrency, maxAttempts);
    if concurrency >= 2 && maxAttempts >= 2 {
      FailThenAddRetriesTwice(concurrency, maxAttempts, File(false, 0));
      assert OnlyAdds(FailThenAdd(File(false, 0)));
    }
    if events :| OnlyAdds(events) && RetriedTwice(Trace(s0, events)) {
      EveryInterleaving(concurrency, maxAttempts, events);
      RetriedTwiceNeeds(Trace(s0, events));
      SettingsStay(s0, events);
    }
  }
}
