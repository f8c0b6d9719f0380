/** The bounded worker pool of cmd/orbit/pr.go, over every interleaving of its goroutines. */
module RepoPool {
  import opened Strings

  const MAX_CONCURRENCY := 4

  datatype Worker = NotStarted | Receiving | Working(job: nat) | Done

  /** Where the calling goroutine is: starting workers, at the send of an index, or at wg.Wait. */
  datatype Dispatcher = Spawning(worker: nat) | Sending(index: nat) | Waiting | Returned

  /** A slot is None until a worker writes it; writes counts how often that happened. */
  datatype Pool<R> = Pool(dispatcher: Dispatcher, workers: seq<Worker>, slots: seq<Option<R>>, writes: seq<nat>)

  datatype Step = Spawn | Handoff(worker: nat) | Write(worker: nat) | Close | Exit(worker: nat) | Return

  function Concurrency(targets: nat): nat {
    if targets < MAX_CONCURRENCY then targets else MAX_CONCURRENCY
  }

  function Start<R>(targets: nat): Pool<R> {
    Pool(if targets == 0 then Returned else Spawning(0),
         seq(Concurrency(targets), _ => NotStarted), seq(targets, _ => None), seq(targets, _ => 0))
  }

  /** A step can be taken: a send needs a worker at the receive, since the channel is unbuffered. */
  predicate Enabled<R>(p: Pool<R>, step: Step) {
    match step
    case Spawn => p.dispatcher.Spawning? && p.dispatcher.worker < |p.workers|
    case Handoff(w) =>
      && p.dispatcher.Sending? && p.dispatcher.index < |p.slots|
      && w < |p.workers| && p.workers[w] == Receiving
    case Write(w) => w < |p.workers| && p.workers[w].Working? && p.workers[w].job < |p.slots| == |p.writes|
    case Close => p.dispatcher == Sending(|p.slots|)
    case Exit(w) => p.dispatcher == Waiting && w < |p.workers| && p.workers[w] == Receiving
    case Return => p.dispatcher == Waiting && forall w :: 0 <= w < |p.workers| ==> p.workers[w] == Done
  }

  /** The effect of a step; inspect answers for one target. */
  function Next<R>(p: Pool<R>, step: Step, inspect: nat -> R): Pool<R>
    requires Enabled(p, step)
  {
    match step
    case Spawn =>
      var w := p.dispatcher.worker;
      p.(dispatcher := if w + 1 == |p.workers| then Sending(0) else Spawning(w + 1),
         workers := p.workers[w := Receiving])
    case Handoff(w) =>
      var i := p.dispatcher.index;
      p.(dispatcher := Sending(i + 1), workers := p.workers[w := Working(i)])
    case Write(w) =>
      var j := p.workers[w].job;
      p.(workers := p.workers[w := Receiving], slots := p.slots[j := Some(inspect(j))],
         writes := p.writes[j := p.writes[j] + 1])
    case Close => p.(dispatcher := Waiting)
    case Exit(w) => p.(workers := p.workers[w := Done])
    case Return => p.(dispatcher := Returned)
  }

  /** The indices handed to workers so far. */
  function Dispatched<R>(p: Pool<R>): nat {
    match p.dispatcher
    case Spawning(_) => 0
    case Sending(i) => i
    case _ => |p.slots|
  }

  ghost predicate Held<R>(p: Pool<R>, j: nat) {
    exists w :: 0 <= w < |p.workers| && p.workers[w] == Working(j)
  }

  /** What holds at every point of every run. */
  ghost predicate Inv<R>(p: Pool<R>, targets: nat, inspect: nat -> R) {
    && |p.slots| == |p.writes| == targets && |p.workers| == Concurrency(targets)
    && Dispatched(p) <= targets
    && (targets == 0 ==> p.dispatcher == Returned)
    && (p.dispatcher.Spawning? ==> p.dispatcher.worker < |p.workers|)
    && (forall w :: 0 <= w < |p.workers| ==>
          && (p.workers[w].NotStarted? <==> p.dispatcher.Spawning? && w >= p.dispatcher.worker)
          && (p.workers[w].Done? ==> p.dispatcher.Waiting? || p.dispatcher.Returned?)
          && (p.workers[w].Working? ==> p.workers[w].job < Dispatched(p))
          && (p.dispatcher.Returned? ==> p.workers[w].Done?))
    && (forall v, w :: 0 <= v < w < |p.workers| && p.workers[v].Working? ==> p.workers[v] != p.workers[w])
    && (forall j :: 0 <= j < targets ==> SlotInv(p, j, inspect))
  }

  /** An index is untouched until it is handed out, then held by a worker, and then written once. */
  ghost predicate SlotInv<R>(p: Pool<R>, j: nat, inspect: nat -> R)
    requires j < |p.slots| == |p.writes|
  {
    if j >= Dispatched(p) || Held(p, j) then p.slots[j] == None && p.writes[j] == 0
    else p.slots[j] == Some(inspect(j)) && p.writes[j] == 1
  }

  lemma StartInv<R>(targets: nat, inspect: nat -> R)
    ensures Inv(Start<R>(targets), targets, inspect)
  {
  }

  lemma StepKeepsSlot<R>(p: Pool<R>, step: Step, targets: nat, inspect: nat -> R, j: nat)
    requires Inv(p, targets, inspect) && Enabled(p, step) && j < targets
    ensures |Next(p, step, inspect).slots| == |Next(p, step, inspect).writes| == targets
    ensures SlotInv(Next(p, step, inspect), j, inspect)
  {
    var q := Next(p, step, inspect);
    assert SlotInv(p, j, inspect);
    match step
    case Handoff(w) =>
      assert q.workers[w] == Working(p.dispatcher.index);
      assert forall v :: 0 <= v < |p.workers| && v != w ==> q.workers[v] == p.workers[v];
      assert Held(p, j) ==> Held(q, j);
    case Write(w) =>
      assert forall v :: 0 <= v < |p.workers| && v != w ==> q.workers[v] == p.workers[v];
      assert j != p.workers[w].job ==> (Held(p, j) <==> Held(q, j));
    case Spawn => assert forall v :: 0 <= v < |p.workers| && v != p.dispatcher.worker ==> q.workers[v] == p.workers[v];
    case Exit(w) => assert forall v :: 0 <= v < |p.workers| && v != w ==> q.workers[v] == p.workers[v];
    case _ =>
  }

  lemma StepKeepsInv<R>(p: Pool<R>, step: Step, targets: nat, inspect: nat -> R)
    requires Inv(p, targets, inspect) && Enabled(p, step)
    ensures Inv(Next(p, step, inspect), targets, inspect)
  {
    forall j | 0 <= j < targets ensures SlotInv(Next(p, step, inspect), j, inspect) {
      StepKeepsSlot(p, step, targets, inspect, j);
    }
  }

  /** Nothing is written twice, and no write meets a slot already filled. */
  lemma WritesAreFirst<R>(p: Pool<R>, w: nat, targets: nat, inspect: nat -> R)
    requires Inv(p, targets, inspect) && Enabled(p, Write(w))
    ensures var j := p.workers[w].job; p.slots[j] == None && p.writes[j] == 0
    ensures forall v :: 0 <= v < |p.workers| && v != w ==> p.workers[v] != p.workers[w]
  {
    assert Held(p, p.workers[w].job);
    assert SlotInv(p, p.workers[w].job, inspect);
  }

  /** The pool cannot get stuck before it returns. */
  lemma NoDeadlock<R>(p: Pool<R>, targets: nat, inspect: nat -> R) returns (step: Step)
    requires Inv(p, targets, inspect) && p.dispatcher != Returned
    ensures Enabled(p, step)
  {
    if w: nat :| w < |p.workers| && p.workers[w].Working? {
      step := Write(w);
    } else {
      match p.dispatcher
      case Spawning(_) => step := Spawn;
      case Sending(i) =>
        assert p.workers[0] == Receiving;
        step := if i == targets then Close else Handoff(0);
      case Waiting =>
        if w: nat :| w < |p.workers| && p.workers[w] == Receiving {
          step := Exit(w);
        } else {
          step := Return;
        }
    }
  }

  // ----- how long a run takes

  /** The steps that one worker has still to take: be started, write what it holds, leave. */
  function WorkerSteps(w: Worker): nat {
    match w
    case NotStarted => 2
    case Receiving => 1
    case Working(_) => 2
    case Done => 0
  }

  function AllWorkerSteps(workers: seq<Worker>): nat {
    if workers == [] then 0 else WorkerSteps(workers[0]) + AllWorkerSteps(workers[1..])
  }

  /** The steps left in every run from here. */
  function Remaining<R>(p: Pool<R>): int {
    AllWorkerSteps(p.workers) + 2 * (|p.slots| - Dispatched(p))
    + match p.dispatcher
      case Waiting => 1
      case Returned => 0
      case _ => 2
  }

  lemma {:induction false} WorkerStepsUpdate(workers: seq<Worker>, w: nat, x: Worker)
    requires w < |workers|
    ensures AllWorkerSteps(workers[w := x]) == AllWorkerSteps(workers) - WorkerSteps(workers[w]) + WorkerSteps(x)
  {
    if w == 0 {
      assert workers[0 := x][1..] == workers[1..];
    } else {
      assert workers[w := x][1..] == workers[1..][w - 1 := x];
      WorkerStepsUpdate(workers[1..], w - 1, x);
    }
  }

  lemma {:induction false} AllWorkerStepsIs(workers: seq<Worker>, each: nat)
    requires forall w :: 0 <= w < |workers| ==> WorkerSteps(workers[w]) == each
    ensures AllWorkerSteps(workers) == |workers| * each
  {
    if workers != [] {
      AllWorkerStepsIs(workers[1..], each);
    }
  }

  /** Every step, whichever the scheduler picks, brings the end one step nearer. */
  lemma StepCounts<R>(p: Pool<R>, step: Step, targets: nat, inspect: nat -> R)
    requires Inv(p, targets, inspect) && Enabled(p, step)
    ensures Remaining(Next(p, step, inspect)) == Remaining(p) - 1
  {
    match step
    case Spawn => WorkerStepsUpdate(p.workers, p.dispatcher.worker, Receiving);
    case Handoff(w) => WorkerStepsUpdate(p.workers, w, Working(p.dispatcher.index));
    case Write(w) => WorkerStepsUpdate(p.workers, w, Receiving);
    case Exit(w) => WorkerStepsUpdate(p.workers, w, Done);
    case _ =>
  }

  /** Returned is where no steps are left. */
  lemma RemainingZero<R>(p: Pool<R>, targets: nat, inspect: nat -> R)
    requires Inv(p, targets, inspect)
    ensures p.dispatcher == Returned <==> Remaining(p) == 0
  {
    if p.dispatcher == Returned {
      AllWorkerStepsIs(p.workers, 0);
    }
  }

  // ----- whole runs

  /** The pool after a schedule, or None when the schedule takes a step that is not enabled. */
  function Run<R>(p: Pool<R>, schedule: seq<Step>, inspect: nat -> R): Option<Pool<R>>
    decreases |schedule|
  {
    if schedule == [] then Some(p)
    else if Enabled(p, schedule[0]) then Run(Next(p, schedule[0], inspect), schedule[1..], inspect)
    else None
  }

  lemma {:induction false} RunKeepsInv<R>(p: Pool<R>, schedule: seq<Step>, targets: nat, inspect: nat -> R)
    requires Inv(p, targets, inspect) && Run(p, schedule, inspect).Some?
    ensures var q := Run(p, schedule, inspect).value;
      Inv(q, targets, inspect) && Remaining(q) == Remaining(p) - |schedule|
    decreases |schedule|
  {
    if schedule != [] {
      StepKeepsInv(p, schedule[0], targets, inspect);
      StepCounts(p, schedule[0], targets, inspect);
      RunKeepsInv(Next(p, schedule[0], inspect), schedule[1..], targets, inspect);
    }
  }

  /** The number of steps of every complete run. */
  function RunLength(targets: nat): nat {
    if targets == 0 then 0 else 2 * targets + 2 * Concurrency(targets) + 2
  }

  /** Whatever the schedule: a run is never longer than RunLength, it can always go on until it has that many
      steps, at most four targets are being inspected at a time, and once it returns every slot has been
      written exactly once and holds the answer for its own target. */
  lemma EverySchedule<R>(targets: nat, schedule: seq<Step>, inspect: nat -> R)
    requires Run(Start(targets), schedule, inspect).Some?
    ensures
      var p := Run(Start(targets), schedule, inspect).value;
      && |schedule| <= RunLength(targets)
      && |p.workers| <= MAX_CONCURRENCY
      && (p.dispatcher == Returned <==> |schedule| == RunLength(targets))
      && (p.dispatcher != Returned ==> exists step :: Run(Start(targets), schedule + [step], inspect).Some?)
      && (p.dispatcher == Returned ==> forall j :: 0 <= j < targets ==>
            j < |p.slots| == |p.writes| && p.slots[j] == Some(inspect(j)) && p.writes[j] == 1)
  {
    StartInv(targets, inspect);
    RunKeepsInv(Start(targets), schedule, targets, inspect);
    var p := Run(Start(targets), schedule, inspect).value;
    StartRemaining<R>(targets);
    RemainingZero(p, targets, inspect);
    RemainingNatural(p, targets, inspect);
    if p.dispatcher != Returned {
      var step := NoDeadlock(p, targets, inspect);
      RunSnoc(Start(targets), schedule, step, inspect);
    } else {
      forall j | 0 <= j < targets ensures p.slots[j] == Some(inspect(j)) && p.writes[j] == 1 {
        assert SlotInv(p, j, inspect);
      }
    }
  }

  lemma StartRemaining<R>(targets: nat)
    ensures Remaining(Start<R>(targets)) == RunLength(targets)
  {
    AllWorkerStepsIs(Start<R>(targets).workers, 2);
  }

  lemma RemainingNatural<R>(p: Pool<R>, targets: nat, inspect: nat -> R)
    requires Inv(p, targets, inspect)
    ensures Remaining(p) >= 0
  {
  }

  lemma {:induction false} RunSnoc<R>(p: Pool<R>, schedule: seq<Step>, step: Step, inspect: nat -> R)
    requires Run(p, schedule, inspect).Some? && Enabled(Run(p, schedule, inspect).value, step)
    ensures Run(p, schedule + [step], inspect).Some?
    decreases |schedule|
  {
    if schedule == [] {
      assert schedule + [step] == [step];
      assert Run(Next(p, step, inspect), [step][1..], inspect).Some?;
    } else {
      assert (schedule + [step])[1..] == schedule[1..] + [step];
      RunSnoc(Next(p, schedule[0], inspect), schedule[1..], step, inspect);
    }
  }

  /** In no schedule are there ever more workers than four, or than targets. */
  lemma BoundedWorkers<R>(targets: nat, schedule: seq<Step>, inspect: nat -> R)
    requires Run(Start(targets), schedule, inspect).Some?
    ensures |Run(Start(targets), schedule, inspect).value.workers| == if targets <= 4 then targets else 4
  {
    StartInv(targets, inspect);
    RunKeepsInv(Start(targets), schedule, targets, inspect);
  }

  // ----- the results

  /** One repository's outcome; err is the exit code that clierr.ExitCode gives for its error, if any. */
  datatype RepoResult = RepoResult(repo: string, pullRequests: nat, err: Option<int>)

  function TotalOpen(results: seq<RepoResult>): nat {
    if results == [] then 0 else TotalOpen(results[..|results| - 1]) + results[|results| - 1].pullRequests
  }

  /** The total counts every repository's pull requests once: it adds up over any way to cut the list. */
  lemma {:induction false} TotalAddsUp(a: seq<RepoResult>, b: seq<RepoResult>)
    ensures TotalOpen(a + b) == TotalOpen(a) + TotalOpen(b)
    ensures |b| == 1 ==> TotalOpen(b) == b[0].pullRequests
    decreases |b|
  {
    if b == [] {
      assert a + b == a;
    } else {
      var n := |b| - 1;
      assert (a + b)[..|a + b| - 1] == a + b[..n] && (a + b)[|a + b| - 1] == b[n];
      TotalAddsUp(a, b[..n]);
    }
  }

  /** i is the first of the failures with the highest exit code. */
  predicate WorstFailure(results: seq<RepoResult>, i: nat) {
    && i < |results| && results[i].err.Some?
    && (forall j :: 0 <= j < i && results[j].err.Some? ==> results[j].err.value < results[i].err.value)
    && (forall j :: i < j < |results| && results[j].err.Some? ==> results[j].err.value <= results[i].err.value)
  }

  method FirstRepoFailure(results: seq<RepoResult>) returns (selected: int)
    ensures selected < 0 ==> forall j :: 0 <= j < |results| ==> results[j].err.None?
    ensures selected >= 0 ==> WorstFailure(results, selected)
  {
    selected := -1;
    for index := 0 to |results|
      invariant -1 <= selected < index
      invariant selected < 0 ==> forall j :: 0 <= j < index ==> results[j].err.None?
      invariant selected >= 0 ==> WorstFailure(results[..index], selected)
    {
      var result := results[index];
      if result.err.None? {
        continue;
      }
      if selected >= 0 && result.err.value <= results[selected].err.value {
        continue;
      }
      selected := index;
    }
    assert results[..|results|] == results;
  }

  /** statusAcrossRepos: the scheduler picks any step that is enabled; workers write the shared array. */
  method StatusAcrossRepos<T>(targets: seq<T>, inspectRepo: T -> RepoResult) returns (results: array<RepoResult>)
    ensures fresh(results) && results[..] == Answers(targets, inspectRepo)
  {
    results := new RepoResult[|targets|](_ => RepoResult("", 0, None));
    var inspect := (i: nat) => if i < |targets| then inspectRepo(targets[i]) else RepoResult("", 0, None);
    var p := Start<RepoResult>(|targets|);
    StartInv(|targets|, inspect);
    while p.dispatcher != Returned
      invariant Inv(p, |targets|, inspect)
      invariant forall j :: 0 <= j < |targets| && p.slots[j].Some? ==> results[j] == p.slots[j].value
      decreases Remaining(p)
    {
      ghost var next := NoDeadlock(p, |targets|, inspect);
      ghost var before := p;
      var step;
      if {
        case Enabled(p, Spawn) => step := Spawn;
        case w: nat :| w < |p.workers| && Enabled(p, Handoff(w)) => step := Handoff(w);
        case w: nat :| w < |p.workers| && Enabled(p, Write(w)) =>
          step := Write(w);
          results[p.workers[w].job] := inspectRepo(targets[p.workers[w].job]);
        case Enabled(p, Close) => step := Close;
        case w: nat :| w < |p.workers| && Enabled(p, Exit(w)) => step := Exit(w);
        case Enabled(p, Return) => step := Return;
      }
      StepKeepsInv(p, step, |targets|, inspect);
      StepCounts(p, step, |targets|, inspect);
      RemainingNatural(p, |targets|, inspect);
      p := Next(p, step, inspect);
    }
    forall j | 0 <= j < |targets| ensures results[j] == inspectRepo(targets[j]) {
      assert SlotInv(p, j, inspect);
    }
  }

  function Answers<T>(targets: seq<T>, inspectRepo: T -> RepoResult): seq<RepoResult> {
    seq(|targets|, i requires 0 <= i < |targets| => inspectRepo(targets[i]))
  }

  /** The pattern run: total and failure are those of asking the repositories one after another. */
  method StatusWorkspace<T>(targets: seq<T>, inspectRepo: T -> RepoResult)
    returns (results: array<RepoResult>, total: nat, failure: int)
    ensures results[..] == Answers(targets, inspectRepo)
    ensures total == TotalOpen(Answers(targets, inspectRepo))
    ensures failure < 0 ==> forall t :: t in targets ==> inspectRepo(t).err.None?
    ensures failure >= 0 ==> WorstFailure(Answers(targets, inspectRepo), failure)
  {
    results := StatusAcrossRepos(targets, inspectRepo);
    total := 0;
    for i := 0 to results.Length
      invariant total == TotalOpen(results[..i])
    {
      assert results[..i + 1][..i] == results[..i];
      total := total + results[i].pullRequests;
    }
    assert results[..results.Length] == results[..];
    failure := FirstRepoFailure(results[..]);
    assert forall i :: 0 <= i < |targets| ==> results[..][i] == inspectRepo(targets[i]);
  }
}
