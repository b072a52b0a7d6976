/**
  The test runner's worker pool (`worker_thread.run` and the dispatch, poison-pill, collect and join parts
  of `run_tests` in ns3/test.py) as a state machine. The main thread puts the jobs and then one break job
  per worker into a FIFO; each worker takes jobs until it takes a break job; an interrupt can set the
  global flag `thread_exit` at any moment. A worker looks at the flag once per job, before running it: from
  then on workers hand the jobs they take back marked as breaks, but a job that is already running goes on
  and its return code counts. The main thread collects as many results as it dispatched jobs and then joins
  the workers. Every interleaving of these steps is a run. How long a job runs and what it returns is arbitrary.
*/
module WorkerPool {
  import opened Sorting

  datatype Job = Job(id: nat, isBreak: bool, isSkip: bool, returncode: int)

  /** Between two jobs, with a job it has yet to check, running it, with a result in hand, or gone. */
  datatype Worker = Waiting | Took(job: Job) | Running(job: Job) | Finished(job: Job) | Gone

  datatype Outcome = PASS | FAIL | VALGR | CRASH | SKIP | INTERRUPTED

  /** How a finished job is classified: by its marks first, then by its return code 0, 1, 2 or other. */
  function OutcomeOf(job: Job): Outcome {
    if job.isBreak then INTERRUPTED
    else if job.isSkip then SKIP
    else match job.returncode case 0 => PASS case 1 => FAIL case 2 => VALGR case _ => CRASH
  }

  datatype Tally = Tally(passed: nat, failed: nat, valgrind: nat, crashed: nat, skipped: nat, interrupted: nat) {
    function Total(): nat { passed + failed + valgrind + crashed + skipped + interrupted }

    function Of(o: Outcome): nat {
      match o
      case PASS => passed
      case FAIL => failed
      case VALGR => valgrind
      case CRASH => crashed
      case SKIP => skipped
      case INTERRUPTED => interrupted
    }
  }

  datatype State = State(
    planned: seq<Job>, dispatched: nat, pills: nat, ended: bool, threadExit: bool,
    input: seq<Job>, workers: seq<Worker>, output: seq<Job>, collected: seq<Job>, tally: Tally)

  datatype Step =
    | PutJob | PutPill | Collect | Join   // the main thread
    | Get(w: nat) | Check(w: nat) | Return(w: nat, returncode: int) | Put(w: nat)   // worker w
    | Interrupt

  /** `processors` workers and these jobs; none of the jobs is a break. */
  function Init(planned: seq<Job>, processors: nat): State {
    State(planned, 0, 0, false, false, [], seq(processors, _ => Waiting), [], [], Tally(0, 0, 0, 0, 0, 0))
  }

  predicate Enabled(s: State, step: Step) {
    match step
    case PutJob => s.dispatched < |s.planned|
    case PutPill => s.dispatched == |s.planned| && s.pills < |s.workers|
    case Collect => s.dispatched == |s.planned| && s.pills == |s.workers| && |s.collected| < s.dispatched && s.output != []
    case Join =>
      && s.dispatched == |s.planned| && s.pills == |s.workers| && |s.collected| == s.dispatched && !s.ended
      && forall w :: 0 <= w < |s.workers| ==> s.workers[w] == Gone
    case Get(w) => w < |s.workers| && s.workers[w] == Waiting && s.input != []
    case Check(w) => w < |s.workers| && s.workers[w].Took?
    case Return(w, _) => w < |s.workers| && s.workers[w].Running?
    case Put(w) => w < |s.workers| && s.workers[w].Finished?
    case Interrupt => true
  }

  /** Where a worker goes from a job it took: to run it, unless the flag is set or the job is to be skipped. */
  function Checked(job: Job, threadExit: bool): Worker {
    if threadExit then Finished(job.(isBreak := true)) else if job.isSkip then Finished(job) else Running(job)
  }

  /** How the main thread counts a result. */
  function Count(tally: Tally, job: Job): Tally {
    if job.isBreak then tally.(interrupted := tally.interrupted + 1)
    else if job.isSkip then tally.(skipped := tally.skipped + 1)
    else if job.returncode == 0 then tally.(passed := tally.passed + 1)
    else if job.returncode == 1 then tally.(failed := tally.failed + 1)
    else if job.returncode == 2 then tally.(valgrind := tally.valgrind + 1)
    else tally.(crashed := tally.crashed + 1)
  }

  const PILL := Job(0, true, false, 0)

  function Apply(s: State, step: Step): State
    requires Enabled(s, step)
  {
    match step
    case PutJob => s.(input := s.input + [s.planned[s.dispatched]], dispatched := s.dispatched + 1)
    case PutPill => s.(input := s.input + [PILL], pills := s.pills + 1)
    case Collect =>
      s.(output := s.output[1..], collected := s.collected + [s.output[0]], tally := Count(s.tally, s.output[0]))
    case Join => s.(ended := true)
    case Get(w) => s.(input := s.input[1..], workers := s.workers[w := if s.input[0].isBreak then Gone else Took(s.input[0])])
    case Check(w) => s.(workers := s.workers[w := Checked(s.workers[w].job, s.threadExit)])
    case Return(w, rc) => s.(workers := s.workers[w := Finished(s.workers[w].job.(returncode := rc))])
    case Put(w) => s.(output := s.output + [s.workers[w].job], workers := s.workers[w := Waiting])
    case Interrupt => s.(threadExit := true)
  }

  // ---------- runs ----------

  /** Every step of the run is enabled when its turn comes. */
  predicate Legal(s: State, steps: seq<Step>)
    decreases |steps|, 0
  {
    steps == [] || (Legal(s, steps[..|steps| - 1]) && Enabled(Final(s, steps[..|steps| - 1]), steps[|steps| - 1]))
  }

  function Final(s: State, steps: seq<Step>): State
    requires Legal(s, steps)
    decreases |steps|, 1
  {
    if steps == [] then s else Apply(Final(s, steps[..|steps| - 1]), steps[|steps| - 1])
  }

  lemma LastStep(s: State, steps: seq<Step>)
    requires steps != [] && Legal(s, steps)
    ensures var (front, last) := (steps[..|steps| - 1], steps[|steps| - 1]);
      Legal(s, front) && Enabled(Final(s, front), last) && Final(s, steps) == Apply(Final(s, front), last)
  {
  }

  // ---------- weights ----------

  // Any quantity that depends on a job's id alone is followed through the queues and the workers.

  function IdWeight(f: nat -> int): Job -> int {
    (j: Job) => f(j.id)
  }

  function RealWeight(f: nat -> int): Job -> int {
    (j: Job) => if j.isBreak then 0 else f(j.id)
  }

  function HeldWeight(f: nat -> int): Worker -> int {
    (w: Worker) => match w case Took(j) => f(j.id) case Running(j) => f(j.id) case Finished(j) => f(j.id) case _ => 0
  }

  function PillWeight(j: Job): int {
    if j.isBreak then 1 else 0
  }

  function GoneWeight(w: Worker): int {
    if w.Gone? then 1 else 0
  }

  /** The weight of all jobs that are somewhere between the dispatcher and the collector, or collected. */
  function Weight(s: State, f: nat -> int): int {
    Sum(RealWeight(f), s.input) + Sum(HeldWeight(f), s.workers) + Sum(IdWeight(f), s.output) + Sum(IdWeight(f), s.collected)
  }

  function FirstIds(f: nat -> int, n: nat): int {
    if n == 0 then 0 else FirstIds(f, n - 1) + f(n - 1)
  }

  lemma SumOne<T>(f: T -> int, s: seq<T>, x: T)
    ensures Sum(f, s + [x]) == Sum(f, s) + f(x)
  {
  }

  lemma SumHead<T>(f: T -> int, s: seq<T>)
    requires s != []
    ensures Sum(f, s) == f(s[0]) + Sum(f, s[1..])
  {
    assert s == [s[0]] + s[1..] && [s[0]][..0] == [];
    SumConcat(f, [s[0]], s[1..]);
  }

  lemma SumUpdate<T>(f: T -> int, s: seq<T>, i: nat, x: T)
    requires i < |s|
    ensures Sum(f, s[i := x]) == Sum(f, s) - f(s[i]) + f(x)
  {
    assert s[i := x][..i] + s[i := x][i + 1..] == s[..i] + s[i + 1..];
    SumWithout(f, s, i);
    SumWithout(f, s[i := x], i);
  }

  function OutcomeWeight(o: Outcome): Job -> int {
    (j: Job) => if OutcomeOf(j) == o then 1 else 0
  }

  // ---------- the invariant ----------

  ghost predicate PillsLast(input: seq<Job>) {
    forall i, j :: 0 <= i < j < |input| && input[i].isBreak ==> input[j].isBreak
  }

  ghost predicate WellPlanned(planned: seq<Job>) {
    forall i :: 0 <= i < |planned| ==> planned[i].id == i && !planned[i].isBreak
  }

  /** A job that a worker has taken, or a result, belongs to its planned job; results marked as breaks
      exist only after an interrupt. */
  ghost predicate ResultOf(s: State, j: Job) {
    && j.id < s.dispatched <= |s.planned|
    && j.isSkip == s.planned[j.id].isSkip
    && (j.isBreak ==> s.threadExit)
  }

  ghost predicate Inv(s: State) {
    && WellPlanned(s.planned) && s.dispatched <= |s.planned| && s.pills <= |s.workers|
    && (s.pills > 0 ==> s.dispatched == |s.planned|)
    && PillsLast(s.input)
    && (forall i :: 0 <= i < |s.input| && !s.input[i].isBreak ==> ResultOf(s, s.input[i]))
    && Sum(PillWeight, s.input) + Sum(GoneWeight, s.workers) == s.pills
    && (forall w :: 0 <= w < |s.workers| && s.workers[w].Took? ==> ResultOf(s, s.workers[w].job) && !s.workers[w].job.isBreak)
    && (forall w :: 0 <= w < |s.workers| && s.workers[w].Running? ==> ResultOf(s, s.workers[w].job) && !s.workers[w].job.isBreak)
    && (forall w :: 0 <= w < |s.workers| && s.workers[w].Finished? ==> ResultOf(s, s.workers[w].job))
    && (forall i :: 0 <= i < |s.output| ==> ResultOf(s, s.output[i]))
    && (forall i :: 0 <= i < |s.collected| ==> ResultOf(s, s.collected[i]))
    && ((exists w :: 0 <= w < |s.workers| && s.workers[w].Gone?) ==> forall i :: 0 <= i < |s.input| ==> s.input[i].isBreak)
    && (forall o :: s.tally.Of(o) == Sum(OutcomeWeight(o), s.collected))
    && s.tally.Total() == |s.collected|
    && (s.ended ==> |s.collected| == s.dispatched == |s.planned| && forall w :: 0 <= w < |s.workers| ==> s.workers[w].Gone?)
  }

  // ---------- the invariant is kept ----------

  lemma {:induction false} SumNonNegative<T>(f: T -> int, s: seq<T>, i: nat)
    requires forall x :: f(x) >= 0
    ensures Sum(f, s) >= 0 && (i < |s| ==> Sum(f, s) >= f(s[i]))
    decreases |s|
  {
    if s != [] { SumNonNegative(f, s[..|s| - 1], i); }
  }

  lemma {:induction false} InitiallyNone(n: nat)
    ensures Sum(GoneWeight, seq(n, _ => Waiting)) == 0
    decreases n
  {
    if n > 0 {
      var ws: seq<Worker> := seq(n, _ => Waiting);
      assert ws[..n - 1] == seq(n - 1, _ => Waiting);
      InitiallyNone(n - 1);
    }
  }

  lemma InitInv(planned: seq<Job>, processors: nat)
    requires WellPlanned(planned)
    ensures Inv(Init(planned, processors))
  {
    InitiallyNone(processors);
  }

  /** While the dispatcher is at work no worker has gone. */
  lemma NobodyGone(s: State)
    requires Inv(s) && s.pills == 0
    ensures forall w :: 0 <= w < |s.workers| ==> !s.workers[w].Gone?
    ensures forall i :: 0 <= i < |s.input| ==> !s.input[i].isBreak
  {
    forall w | 0 <= w < |s.workers|
      ensures !s.workers[w].Gone?
    {
      SumNonNegative(GoneWeight, s.workers, w);
      SumNonNegative(PillWeight, s.input, 0);
    }
    forall i | 0 <= i < |s.input|
      ensures !s.input[i].isBreak
    {
      SumNonNegative(GoneWeight, s.workers, 0);
      SumNonNegative(PillWeight, s.input, i);
    }
  }

  lemma PutJobKeepsInv(s: State)
    requires Inv(s) && Enabled(s, PutJob)
    ensures Inv(Apply(s, PutJob))
  {
    hide Sum;
    var t := Apply(s, PutJob);
    NobodyGone(s);
    SumOne(PillWeight, s.input, s.planned[s.dispatched]);
    assert ResultOf(t, s.planned[s.dispatched]);
    Outlives(s, t);
  }

  lemma PutPillKeepsInv(s: State)
    requires Inv(s) && Enabled(s, PutPill)
    ensures Inv(Apply(s, PutPill))
  {
    hide Sum;
    SumOne(PillWeight, s.input, PILL);
    Outlives(s, Apply(s, PutPill));
  }

  /** Counting a result adds one to its outcome and nothing to the others. */
  lemma CountsOutcome(tally: Tally, job: Job, o: Outcome)
    ensures Count(tally, job).Of(o) == tally.Of(o) + if OutcomeOf(job) == o then 1 else 0
    ensures Count(tally, job).Total() == tally.Total() + 1
  {
  }

  /** Which count a result raises: by its marks first, then 0 passed, 1 failed, 2 a memory error, anything else crashed. */
  lemma CountsByCode(tally: Tally, job: Job)
    ensures var t := Count(tally, job); var ran := !job.isBreak && !job.isSkip;
      && t.interrupted == tally.interrupted + (if job.isBreak then 1 else 0)
      && t.skipped == tally.skipped + (if !job.isBreak && job.isSkip then 1 else 0)
      && t.passed == tally.passed + (if ran && job.returncode == 0 then 1 else 0)
      && t.failed == tally.failed + (if ran && job.returncode == 1 then 1 else 0)
      && t.valgrind == tally.valgrind + (if ran && job.returncode == 2 then 1 else 0)
      && t.crashed == tally.crashed + (if ran && job.returncode !in {0, 1, 2} then 1 else 0)
  {
  }

  lemma CollectKeepsInv(s: State)
    requires Inv(s) && Enabled(s, Collect)
    ensures Inv(Apply(s, Collect))
  {
    hide Sum, Count, OutcomeOf, Tally.Of, Tally.Total;
    var t := Apply(s, Collect);
    forall o
      ensures t.tally.Of(o) == Sum(OutcomeWeight(o), t.collected) && t.tally.Total() == s.tally.Total() + 1
    {
      SumOne(OutcomeWeight(o), s.collected, s.output[0]);
      CountsOutcome(s.tally, s.output[0], o);
    }
    assert t.tally.Of(PASS) == Sum(OutcomeWeight(PASS), t.collected);
    Outlives(s, t);
  }

  lemma OthersKeepInv(s: State, step: Step)
    requires Inv(s) && Enabled(s, step) && (step.Join? || step.Interrupt?)
    ensures Inv(Apply(s, step))
  {
    Outlives(s, Apply(s, step));
  }

  /** Later states keep accepting what earlier ones accepted as results. */
  lemma Outlives(s: State, t: State)
    requires s.planned == t.planned && s.dispatched <= t.dispatched <= |s.planned| && (s.threadExit ==> t.threadExit)
    ensures forall j :: ResultOf(s, j) ==> ResultOf(t, j)
  {
  }

  lemma GetKeepsInv(s: State, w: nat)
    requires Inv(s) && Enabled(s, Get(w))
    ensures Inv(Apply(s, Get(w)))
  {
    hide Sum;
    var t := Apply(s, Get(w));
    var job := s.input[0];
    SumHead(PillWeight, s.input);
    SumUpdate(GoneWeight, s.workers, w, if job.isBreak then Gone else Took(job));
    assert forall i :: 0 <= i < |t.input| ==> t.input[i] == s.input[i + 1];
    assert job.isBreak ==> forall i :: 0 <= i < |t.input| ==> t.input[i].isBreak;
    Outlives(s, t);
  }

  lemma CheckKeepsInv(s: State, w: nat)
    requires Inv(s) && Enabled(s, Check(w))
    ensures Inv(Apply(s, Check(w)))
  {
    hide Sum;
    SumUpdate(GoneWeight, s.workers, w, Checked(s.workers[w].job, s.threadExit));
    Outlives(s, Apply(s, Check(w)));
  }

  lemma ReturnKeepsInv(s: State, w: nat, rc: int)
    requires Inv(s) && Enabled(s, Return(w, rc))
    ensures Inv(Apply(s, Return(w, rc)))
  {
    hide Sum;
    SumUpdate(GoneWeight, s.workers, w, Finished(s.workers[w].job.(returncode := rc)));
    Outlives(s, Apply(s, Return(w, rc)));
  }

  lemma PutKeepsInv(s: State, w: nat)
    requires Inv(s) && Enabled(s, Put(w))
    ensures Inv(Apply(s, Put(w)))
  {
    hide Sum;
    SumUpdate(GoneWeight, s.workers, w, Waiting);
    Outlives(s, Apply(s, Put(w)));
  }

  lemma StepKeepsInv(s: State, step: Step)
    requires Inv(s) && Enabled(s, step)
    ensures Inv(Apply(s, step))
  {
    hide Inv, Enabled;
    match step
    case Get(w) => GetKeepsInv(s, w);
    case Check(w) => CheckKeepsInv(s, w);
    case Return(w, rc) => ReturnKeepsInv(s, w, rc);
    case Put(w) => PutKeepsInv(s, w);
    case PutJob => PutJobKeepsInv(s);
    case PutPill => PutPillKeepsInv(s);
    case Collect => CollectKeepsInv(s);
    case _ => OthersKeepInv(s, step);
  }

  lemma StepKeepsPool(s: State, step: Step)
    requires Enabled(s, step)
    ensures Apply(s, step).planned == s.planned && |Apply(s, step).workers| == |s.workers|
  {
  }

  /** The invariant holds in every state of every run. */
  lemma {:induction false} RunKeepsInv(planned: seq<Job>, processors: nat, steps: seq<Step>)
    requires WellPlanned(planned) && Legal(Init(planned, processors), steps)
    ensures Inv(Final(Init(planned, processors), steps))
    ensures Final(Init(planned, processors), steps).planned == planned
    ensures |Final(Init(planned, processors), steps).workers| == processors
    decreases |steps|
  {
    hide Inv, Enabled;
    if steps == [] {
      InitInv(planned, processors);
    } else {
      var front := steps[..|steps| - 1];
      RunKeepsInv(planned, processors, front);
      StepKeepsInv(Final(Init(planned, processors), front), steps[|steps| - 1]);
      StepKeepsPool(Final(Init(planned, processors), front), steps[|steps| - 1]);
    }
  }

  // ---------- every job is somewhere, exactly once ----------

  /** A step changes the weight only by dispatching a job. */
  lemma StepWeight(s: State, step: Step, f: nat -> int)
    requires Inv(s) && Enabled(s, step)
    ensures Weight(Apply(s, step), f) == Weight(s, f) + if step.PutJob? then f(s.dispatched) else 0
  {
    hide Sum;
    match step
    case PutJob => SumOne(RealWeight(f), s.input, s.planned[s.dispatched]);
    case PutPill => SumOne(RealWeight(f), s.input, PILL);
    case Collect =>
      SumHead(IdWeight(f), s.output);
      SumOne(IdWeight(f), s.collected, s.output[0]);
    case Get(w) =>
      SumHead(RealWeight(f), s.input);
      SumUpdate(HeldWeight(f), s.workers, w, if s.input[0].isBreak then Gone else Took(s.input[0]));
    case Check(w) =>
      SumUpdate(HeldWeight(f), s.workers, w, Checked(s.workers[w].job, s.threadExit));
    case Return(w, rc) =>
      SumUpdate(HeldWeight(f), s.workers, w, Finished(s.workers[w].job.(returncode := rc)));
    case Put(w) =>
      SumUpdate(HeldWeight(f), s.workers, w, Waiting);
      SumOne(IdWeight(f), s.output, s.workers[w].job);
    case _ =>
  }

  lemma DispatchedWeight(s: State, step: Step, f: nat -> int)
    requires Inv(s) && Enabled(s, step) && Weight(s, f) == FirstIds(f, s.dispatched)
    ensures Weight(Apply(s, step), f) == FirstIds(f, Apply(s, step).dispatched)
  {
    hide Weight, Inv;
    StepWeight(s, step, f);
  }

  lemma {:induction false} InitialWeight(planned: seq<Job>, n: nat, f: nat -> int)
    ensures Weight(Init(planned, n), f) == 0 == FirstIds(f, 0)
    decreases n
  {
    if n > 0 {
      var ws: seq<Worker> := seq(n, _ => Waiting);
      assert ws[..n - 1] == seq(n - 1, _ => Waiting);
      InitialWeight(planned, n - 1, f);
    }
  }

  /** In every state of every run, whatever is counted per job: queued + held + put out + collected = dispatched. */
  lemma {:induction false} NothingLost(planned: seq<Job>, processors: nat, steps: seq<Step>, f: nat -> int)
    requires WellPlanned(planned) && Legal(Init(planned, processors), steps)
    ensures var s := Final(Init(planned, processors), steps); Weight(s, f) == FirstIds(f, s.dispatched)
    decreases |steps|
  {
    hide Inv, Weight, Apply, Enabled, FirstIds;
    if steps == [] {
      InitialWeight(planned, processors, f);
    } else {
      hide Final, Legal;
      LastStep(Init(planned, processors), steps);
      var front := steps[..|steps| - 1];
      NothingLost(planned, processors, front, f);
      RunKeepsInv(planned, processors, front);
      DispatchedWeight(Final(Init(planned, processors), front), steps[|steps| - 1], f);
    }
  }

  function Ones(): nat -> int {
    (id: nat) => 1
  }

  function Is(i: nat): nat -> int {
    (id: nat) => if id == i then 1 else 0
  }

  lemma {:induction false} FirstIdsOne(n: nat)
    ensures FirstIds(Ones(), n) == n
  {
    if n > 0 { FirstIdsOne(n - 1); }
  }

  lemma {:induction false} FirstIdsIs(i: nat, n: nat)
    ensures FirstIds(Is(i), n) == if i < n then 1 else 0
  {
    if n > 0 { FirstIdsIs(i, n - 1); }
  }

  /** Each dispatched job is, at any moment, in exactly one place: the input queue, one worker, the output
      queue, or the results collected so far. */
  lemma {:induction false} JobInOnePlace(planned: seq<Job>, processors: nat, steps: seq<Step>, i: nat)
    requires WellPlanned(planned) && Legal(Init(planned, processors), steps)
    ensures var s := Final(Init(planned, processors), steps); Weight(s, Is(i)) == if i < s.dispatched then 1 else 0
  {
    NothingLost(planned, processors, steps, Is(i));
    FirstIdsIs(i, Final(Init(planned, processors), steps).dispatched);
  }

  // ---------- both queues are first in, first out ----------

  /** The ids of the jobs that workers have taken, in the order of the steps in which they took them. */
  function TakenIds(init: State, steps: seq<Step>): seq<nat>
    requires Legal(init, steps)
  {
    if steps == [] then []
    else
      var (front, step) := (steps[..|steps| - 1], steps[|steps| - 1]);
      TakenIds(init, front) +
      if step.Get? && Final(init, steps).workers[step.w].Took? then [Final(init, steps).workers[step.w].job.id] else []
  }

  /** The results that workers have put out, in the order of the steps in which they did. */
  function PutOut(init: State, steps: seq<Step>): seq<Job>
    requires Legal(init, steps)
  {
    if steps == [] then []
    else
      var (front, step) := (steps[..|steps| - 1], steps[|steps| - 1]);
      PutOut(init, front) + if step.Put? then [Final(init, front).workers[step.w].job] else []
  }

  /** The first `n` jobs have been taken: the others dispatched wait in the order in which they were, and only
      break jobs behind them. */
  ghost predicate Waits(s: State, n: nat) {
    && n <= s.dispatched <= |s.planned| && s.dispatched - n <= |s.input|
    && s.input[..s.dispatched - n] == s.planned[n..s.dispatched]
    && (forall i :: s.dispatched - n <= i < |s.input| ==> s.input[i] == PILL)
    && |s.input| - (s.dispatched - n) <= s.pills && (s.pills > 0 ==> s.dispatched == |s.planned|)
  }

  lemma PutJobKeepsWaiting(s: State, n: nat)
    requires Waits(s, n) && Enabled(s, PutJob)
    ensures Waits(Apply(s, PutJob), n)
  {
    var job := s.planned[s.dispatched];
    assert |s.input| == s.dispatched - n && s.input[..s.dispatched - n] == s.input;
    assert s.planned[n..s.dispatched + 1] == s.planned[n..s.dispatched] + [job];
    assert (s.input + [job])[..s.dispatched + 1 - n] == s.input + [job];
  }

  lemma GetKeepsWaiting(s: State, w: nat, n: nat)
    requires WellPlanned(s.planned) && Waits(s, n) && Enabled(s, Get(w))
    ensures
      var t := Apply(s, Get(w));
      if t.workers[w].Took? then t.workers[w].job.id == n < s.dispatched && Waits(t, n + 1) else Waits(t, n)
  {
    var rest := s.input[1..];
    var k := s.dispatched - n;
    if k > 0 {
      assert s.input[0] == s.input[..k][0] == s.planned[n];
      assert rest[..k - 1] == s.input[..k][1..] == s.planned[n + 1..s.dispatched];
    } else {
      assert s.input[0] == PILL && rest[..0] == s.planned[n..s.dispatched];
    }
    assert forall i :: 0 <= i < |rest| ==> rest[i] == s.input[i + 1];
  }

  lemma StepKeepsWaiting(s: State, step: Step, n: nat)
    requires WellPlanned(s.planned) && Waits(s, n) && Enabled(s, step)
    ensures
      var t := Apply(s, step);
      if step.Get? && t.workers[step.w].Took? then t.workers[step.w].job.id == n < s.dispatched && Waits(t, n + 1) else Waits(t, n)
  {
    match step
    case Get(w) => GetKeepsWaiting(s, w, n);
    case PutJob => PutJobKeepsWaiting(s, n);
    case PutPill =>
      assert (s.input + [PILL])[..s.dispatched - n] == s.input[..s.dispatched - n];
    case _ =>
  }

  lemma StepKeepsResults(s: State, step: Step)
    requires Enabled(s, step)
    ensures var t := Apply(s, step);
      t.collected + t.output == s.collected + s.output + if step.Put? then [s.workers[step.w].job] else []
  {
    var t := Apply(s, step);
    if step.Collect? {
      assert s.output == [s.output[0]] + s.output[1..];
    }
    assert s.collected + s.output + [] == s.collected + s.output;
  }

  /** In every run the `i`-th job taken is the `i`-th one dispatched, the jobs not yet taken wait in the order of
      their dispatch with the break jobs behind them, and results are collected in the order in which they were
      put out. */
  lemma {:induction false} FirstInFirstOut(planned: seq<Job>, processors: nat, steps: seq<Step>)
    requires WellPlanned(planned) && Legal(Init(planned, processors), steps)
    ensures var (s, ids) := (Final(Init(planned, processors), steps), TakenIds(Init(planned, processors), steps));
      && s.planned == planned && (forall i :: 0 <= i < |ids| ==> ids[i] == i)
      && Waits(s, |ids|)
      && s.collected + s.output == PutOut(Init(planned, processors), steps)
    decreases |steps|
  {
    hide Apply, Enabled, Waits, Legal;
    var init := Init(planned, processors);
    if steps == [] {
      NothingTaken(planned, processors);
    } else {
      var (front, step) := (steps[..|steps| - 1], steps[|steps| - 1]);
      LastStep(init, steps);
      FirstInFirstOut(planned, processors, front);
      var before := Final(init, front);
      StepKeepsWaiting(before, step, |TakenIds(init, front)|);
      StepKeepsResults(before, step);
      StepKeepsPool(before, step);
    }
  }

  lemma NothingTaken(planned: seq<Job>, processors: nat)
    ensures var s := Init(planned, processors);
      Legal(s, []) && Final(s, []) == s && s.planned == planned && Waits(s, 0) && s.collected + s.output == []
  {
  }

  /** The main thread collects only after it has dispatched everything, the break jobs included. */
  lemma {:induction false} CollectsLast(planned: seq<Job>, processors: nat, steps: seq<Step>)
    requires Legal(Init(planned, processors), steps)
    ensures var s := Final(Init(planned, processors), steps);
      && |s.workers| == processors && s.planned == planned
      && (s.pills > 0 || s.collected != [] || s.ended ==> s.dispatched == |planned|)
      && (s.collected != [] || s.ended ==> s.pills == processors)
    decreases |steps|
  {
    if steps != [] {
      LastStep(Init(planned, processors), steps);
      CollectsLast(planned, processors, steps[..|steps| - 1]);
    }
  }

  // ---------- no worker leaves early ----------

  /** A worker goes only by taking a break job, and then no real job is left in the input queue, nor will one come. */
  lemma NoEarlyExit(planned: seq<Job>, processors: nat, steps: seq<Step>, w: nat)
    requires WellPlanned(planned) && Legal(Init(planned, processors), steps)
    requires w < |Final(Init(planned, processors), steps).workers| && Final(Init(planned, processors), steps).workers[w].Gone?
    ensures var s := Final(Init(planned, processors), steps);
      s.dispatched == |planned| && forall i :: 0 <= i < |s.input| ==> s.input[i].isBreak
  {
    RunKeepsInv(planned, processors, steps);
    var s := Final(Init(planned, processors), steps);
    if s.pills == 0 { NobodyGone(s); }
  }

  // ---------- progress ----------

  lemma {:induction false} SumPositive<T>(f: T -> int, s: seq<T>) returns (i: nat)
    requires (forall x :: f(x) >= 0) && Sum(f, s) > 0
    ensures i < |s| && f(s[i]) > 0
    decreases |s|
  {
    if f(s[|s| - 1]) > 0 {
      i := |s| - 1;
    } else {
      i := SumPositive(f, s[..|s| - 1]);
    }
  }

  lemma {:induction false} SumAll<T>(f: T -> int, s: seq<T>)
    requires forall i :: 0 <= i < |s| ==> f(s[i]) == 1
    ensures Sum(f, s) == |s|
    decreases |s|
  {
    if s != [] { SumAll(f, s[..|s| - 1]); }
  }

  ghost predicate CanMove(s: State) {
    exists step: Step :: step != Interrupt && Enabled(s, step)
  }

  lemma Moves(s: State, step: Step)
    requires step != Interrupt && Enabled(s, step)
    ensures CanMove(s)
  {
  }

  /** A worker that is not waiting and not gone can go on. */
  lemma BusyMoves(s: State, w: nat)
    requires w < |s.workers| && !s.workers[w].Waiting? && !s.workers[w].Gone?
    ensures CanMove(s)
  {
    Moves(s, match s.workers[w] case Took(_) => Check(w) case Running(_) => Return(w, 0) case _ => Put(w));
  }

  /** If something waits in the input queue, some worker can move, unless all have gone. */
  lemma QueueMoves(s: State, w: nat)
    requires s.input != [] && w < |s.workers| && !s.workers[w].Gone?
    ensures CanMove(s)
  {
    if s.workers[w].Waiting? {
      Moves(s, Get(w));
    } else {
      BusyMoves(s, w);
    }
  }

  /** With at least one worker, or nothing to do, no reachable state is stuck before the end: the collector never waits in vain. */
  lemma Progress(s: State)
    requires Inv(s) && !s.ended && Weight(s, Ones()) == s.dispatched
    requires |s.workers| > 0 || |s.planned| == 0
    ensures CanMove(s)
  {
    hide Inv, Sum, CanMove;
    InvSizes(s);
    if s.dispatched < |s.planned| {
      Moves(s, PutJob);
    } else if s.pills < |s.workers| {
      Moves(s, PutPill);
    } else if |s.collected| < s.dispatched {
      if s.output != [] {
        Moves(s, Collect);
      } else {
        CollectorServed(s);
      }
    } else if w :| 0 <= w < |s.workers| && !s.workers[w].Gone? {
      if s.workers[w].Waiting? {
        PillLeft(s, w);
      }
      if s.workers[w].Waiting? { QueueMoves(s, w); } else { BusyMoves(s, w); }
    } else {
      Moves(s, Join);
    }
  }

  lemma InvSizes(s: State)
    requires Inv(s) && Weight(s, Ones()) == s.dispatched
    ensures s.dispatched <= |s.planned| && s.pills <= |s.workers| && |s.collected| <= s.dispatched
  {
    SumAll(IdWeight(Ones()), s.collected);
    SumNonNegative(RealWeight(Ones()), s.input, 0);
    SumNonNegative(HeldWeight(Ones()), s.workers, 0);
    SumNonNegative(IdWeight(Ones()), s.output, 0);
  }

  /** Results are missing and none is ready: then a worker holds a job, or a job waits and a worker is left to take it. */
  lemma CollectorServed(s: State)
    requires Inv(s) && Weight(s, Ones()) == s.dispatched && |s.collected| < s.dispatched && s.output == []
    requires |s.workers| > 0
    ensures CanMove(s)
  {
    hide CanMove;
    SumAll(IdWeight(Ones()), s.collected);
    SumNonNegative(RealWeight(Ones()), s.input, 0);
    SumNonNegative(HeldWeight(Ones()), s.workers, 0);
    if Sum(HeldWeight(Ones()), s.workers) > 0 {
      var w := SumPositive(HeldWeight(Ones()), s.workers);
      BusyMoves(s, w);
    } else {
      var i := SumPositive(RealWeight(Ones()), s.input);
      assert !s.input[i].isBreak;
      QueueMoves(s, 0);
    }
  }

  /** After all break jobs have been put in, a worker that still waits will find one. */
  lemma PillLeft(s: State, w: nat)
    requires Inv(s) && s.pills == |s.workers| && w < |s.workers| && !s.workers[w].Gone?
    ensures s.input != []
  {
    if s.input == [] {
      var all := s.workers[w := Gone];
      SumUpdate(GoneWeight, s.workers, w, Gone);
      AtMostAll(GoneWeight, all);
    }
  }

  lemma {:induction false} AtMostAll<T>(f: T -> int, s: seq<T>)
    requires forall x :: f(x) <= 1
    ensures Sum(f, s) <= |s|
    decreases |s|
  {
    if s != [] { AtMostAll(f, s[..|s| - 1]); }
  }

  /** In every run: if there are workers or no jobs, the main thread is at the end or some thread can move. */
  lemma NeverStuck(planned: seq<Job>, processors: nat, steps: seq<Step>)
    requires WellPlanned(planned) && Legal(Init(planned, processors), steps)
    requires processors > 0 || |planned| == 0
    ensures var s := Final(Init(planned, processors), steps); s.ended || CanMove(s)
  {
    hide Inv, Weight, CanMove, Sum;
    var s := Final(Init(planned, processors), steps);
    RunKeepsInv(planned, processors, steps);
    NothingLost(planned, processors, steps, Ones());
    FirstIdsOne(s.dispatched);
    if !s.ended { Progress(s); }
  }

  function PutAll(n: nat): (steps: seq<Step>)
    ensures |steps| == n
  {
    if n == 0 then [] else PutAll(n - 1) + [PutJob]
  }

  lemma {:induction false} PutAllRuns(planned: seq<Job>, n: nat)
    requires n <= |planned|
    ensures Legal(Init(planned, 0), PutAll(n))
    ensures var s := Final(Init(planned, 0), PutAll(n));
      s.planned == planned && s.dispatched == n && s.pills == 0 == |s.workers| && s.output == [] && s.collected == [] && !s.ended
  {
    if n > 0 {
      PutAllRuns(planned, n - 1);
      assert PutAll(n)[..n - 1] == PutAll(n - 1);
    }
  }

  lemma {:induction false} NoWorkersNoResults(planned: seq<Job>, steps: seq<Step>)
    requires Legal(Init(planned, 0), steps)
    ensures var s := Final(Init(planned, 0), steps);
      s.planned == planned && s.workers == [] && s.output == [] && s.collected == [] && (planned != [] ==> !s.ended)
    decreases |steps|
  {
    if steps != [] {
      LastStep(Init(planned, 0), steps);
      NoWorkersNoResults(planned, steps[..|steps| - 1]);
    }
  }

  /** Without workers and with at least one job, no run comes to an end, and some run reaches a state in which
      no thread can move: the main thread waits for a result for ever. Together with `NeverStuck`: a pool can
      get stuck exactly when it has jobs and no worker. */
  lemma StuckWithoutWorkers(planned: seq<Job>)
    requires |planned| > 0
    ensures forall steps :: Legal(Init(planned, 0), steps) ==> !Final(Init(planned, 0), steps).ended
    ensures exists steps :: Legal(Init(planned, 0), steps) && !Final(Init(planned, 0), steps).ended
                            && !CanMove(Final(Init(planned, 0), steps))
  {
    forall steps | Legal(Init(planned, 0), steps)
      ensures !Final(Init(planned, 0), steps).ended
    {
      NoWorkersNoResults(planned, steps);
    }
    PutAllRuns(planned, |planned|);
    var s := Final(Init(planned, 0), PutAll(|planned|));
    forall step: Step | step != Interrupt
      ensures !Enabled(s, step)
    {
    }
  }

  // ---------- termination ----------

  function StageWeight(w: Worker): int {
    match w case Took(_) => 4 case Running(_) => 3 case Finished(_) => 2 case _ => 0
  }

  function QueueWeight(j: Job): int {
    if j.isBreak then 1 else 5
  }

  /** The work left: at most 6 steps per job, 2 per worker and the final join. */
  function Remaining(s: State): int {
    6 * (|s.planned| - s.dispatched) + 2 * (|s.workers| - s.pills)
    + Sum(QueueWeight, s.input) + Sum(StageWeight, s.workers) + |s.output| + if s.ended then 0 else 1
  }

  /** Every step but an interrupt uses up work; an interrupt adds none. */
  lemma StepUsesWork(s: State, step: Step)
    requires Inv(s) && Enabled(s, step)
    ensures if step == Interrupt then Remaining(Apply(s, step)) == Remaining(s) else Remaining(Apply(s, step)) < Remaining(s)
  {
    hide Sum;
    match step
    case PutJob => SumOne(QueueWeight, s.input, s.planned[s.dispatched]);
    case PutPill => SumOne(QueueWeight, s.input, PILL);
    case Get(w) =>
      SumHead(QueueWeight, s.input);
      SumUpdate(StageWeight, s.workers, w, if s.input[0].isBreak then Gone else Took(s.input[0]));
    case Check(w) => SumUpdate(StageWeight, s.workers, w, Checked(s.workers[w].job, s.threadExit));
    case Return(w, rc) => SumUpdate(StageWeight, s.workers, w, Finished(s.workers[w].job.(returncode := rc)));
    case Put(w) => SumUpdate(StageWeight, s.workers, w, Waiting);
    case _ =>
  }

  /** The steps of a run that threads take. */
  function ThreadSteps(steps: seq<Step>): nat {
    if steps == [] then 0 else ThreadSteps(steps[..|steps| - 1]) + if steps[|steps| - 1] == Interrupt then 0 else 1
  }

  lemma {:induction false} InitialWork(planned: seq<Job>, n: nat)
    ensures Remaining(Init(planned, n)) == 6 * |planned| + 2 * n + 1
    decreases n
  {
    if n > 0 {
      var ws: seq<Worker> := seq(n, _ => Waiting);
      assert ws[..n - 1] == seq(n - 1, _ => Waiting);
      InitialWork(planned, n - 1);
    }
  }

  lemma {:induction false} WorkDone(planned: seq<Job>, processors: nat, steps: seq<Step>)
    requires WellPlanned(planned) && Legal(Init(planned, processors), steps)
    ensures Remaining(Final(Init(planned, processors), steps)) + ThreadSteps(steps) <= 6 * |planned| + 2 * processors + 1
    decreases |steps|
  {
    hide Inv, Remaining;
    if steps == [] {
      InitialWork(planned, processors);
    } else {
      var front := steps[..|steps| - 1];
      WorkDone(planned, processors, front);
      RunKeepsInv(planned, processors, front);
      StepUsesWork(Final(Init(planned, processors), front), steps[|steps| - 1]);
    }
  }

  /** No run is longer than six steps per job, two per worker and one, interrupts aside. */
  lemma RunsAreShort(planned: seq<Job>, processors: nat, steps: seq<Step>)
    requires WellPlanned(planned) && Legal(Init(planned, processors), steps)
    ensures ThreadSteps(steps) <= 6 * |planned| + 2 * processors + 1
  {
    var s := Final(Init(planned, processors), steps);
    WorkDone(planned, processors, steps);
    RunKeepsInv(planned, processors, steps);
    SumNonNegative(QueueWeight, s.input, 0);
    SumNonNegative(StageWeight, s.workers, 0);
  }

  // ---------- where results come from ----------

  ghost predicate AsPlanned(s: State, j: Job) {
    j.id < |s.planned| && j == s.planned[j.id]
  }

  /** Jobs that have no result yet are as planned. */
  ghost predicate Unprocessed(s: State) {
    && (forall i :: 0 <= i < |s.input| ==> s.input[i].isBreak || AsPlanned(s, s.input[i]))
    && (forall w :: 0 <= w < |s.workers| && (s.workers[w].Took? || s.workers[w].Running?) ==> AsPlanned(s, s.workers[w].job))
  }

  lemma StepKeepsUnprocessed(s: State, step: Step)
    requires WellPlanned(s.planned) && Unprocessed(s) && Enabled(s, step)
    ensures Unprocessed(Apply(s, step))
  {
    var t := Apply(s, step);
    assert step.Get? ==> forall i :: 0 <= i < |t.input| ==> t.input[i] == s.input[i + 1];
  }

  /** When step `k` of the run is taken, worker `w` is at this point. */
  ghost predicate WorkerAt(init: State, steps: seq<Step>, k: nat, w: nat, at: Worker) {
    k < |steps| && Legal(init, steps[..k])
    && var s := Final(init, steps[..k]); w < |s.workers| && s.workers[w] == at
  }

  /** Step `c` is worker `w`'s look at the flag for job `id`, which finds it set or not. */
  ghost predicate CheckedAt(init: State, steps: seq<Step>, c: nat, w: nat, id: nat, wasSet: bool) {
    && id < |init.planned| && WorkerAt(init, steps, c, w, Took(init.planned[id])) && steps[c] == Check(w)
    && (wasSet <==> Interrupt in steps[..c])
  }

  /** Step `k` is the return of job `id` on worker `w`. */
  ghost predicate ReturnedAt(init: State, steps: seq<Step>, k: nat, w: nat, id: nat, returncode: int) {
    id < |init.planned| && WorkerAt(init, steps, k, w, Running(init.planned[id])) && steps[k] == Return(w, returncode)
  }

  /** A worker looked at the flag for this very job. If an interrupt had come by then, the result is marked
      as a break; if not, the job was skipped as planned, or the same worker ran it and later returned its code,
      whether or not an interrupt came in between. */
  ghost predicate Earned(init: State, steps: seq<Step>, j: Job) {
    && j.id < |init.planned| && j.isSkip == init.planned[j.id].isSkip
    && exists c: nat, w: nat :: CheckedAt(init, steps, c, w, j.id, j.isBreak)
         && (j.isBreak || j.isSkip || exists k: nat :: c < k && ReturnedAt(init, steps, k, w, j.id, j.returncode))
  }

  /** A running job was admitted by its worker's look at the flag, before any interrupt. */
  ghost predicate Admitted(init: State, steps: seq<Step>, w: nat, j: Job) {
    !j.isSkip && exists c: nat :: CheckedAt(init, steps, c, w, j.id, false)
  }

  /** What a worker has finished, has put out, or the main thread has collected. */
  predicate IsResult(s: State, j: Job) {
    Finished(j) in s.workers || j in s.output || j in s.collected
  }

  lemma CheckedGrows(init: State, front: seq<Step>, step: Step, c: nat, w: nat, id: nat, wasSet: bool)
    requires CheckedAt(init, front, c, w, id, wasSet)
    ensures CheckedAt(init, front + [step], c, w, id, wasSet)
  {
    assert (front + [step])[..c] == front[..c];
  }

  lemma ReturnedGrows(init: State, front: seq<Step>, step: Step, k: nat, w: nat, id: nat, returncode: int)
    requires ReturnedAt(init, front, k, w, id, returncode)
    ensures ReturnedAt(init, front + [step], k, w, id, returncode)
  {
    assert (front + [step])[..k] == front[..k];
  }

  lemma EarnedGrows(init: State, front: seq<Step>, step: Step, j: Job)
    requires Earned(init, front, j)
    ensures Earned(init, front + [step], j)
  {
    hide CheckedAt, ReturnedAt;
    var c: nat, w: nat :| CheckedAt(init, front, c, w, j.id, j.isBreak)
      && (j.isBreak || j.isSkip || exists k: nat :: c < k && ReturnedAt(init, front, k, w, j.id, j.returncode));
    CheckedGrows(init, front, step, c, w, j.id, j.isBreak);
    if !j.isBreak && !j.isSkip {
      var k: nat :| c < k && ReturnedAt(init, front, k, w, j.id, j.returncode);
      ReturnedGrows(init, front, step, k, w, j.id, j.returncode);
    }
  }

  lemma AdmittedGrows(init: State, front: seq<Step>, step: Step, w: nat, j: Job)
    requires Admitted(init, front, w, j)
    ensures Admitted(init, front + [step], w, j)
  {
    hide CheckedAt;
    var c: nat :| CheckedAt(init, front, c, w, j.id, false);
    CheckedGrows(init, front, step, c, w, j.id, false);
  }

  /** The results after a step are those before it and what its worker has just finished. */
  lemma StepResults(s: State, step: Step, j: Job)
    requires Enabled(s, step) && IsResult(Apply(s, step), j) && !IsResult(s, j)
    ensures || (step.Check? && Checked(s.workers[step.w].job, s.threadExit) == Finished(j))
            || (step.Return? && step.w < |s.workers| && s.workers[step.w].Running?
                && j == s.workers[step.w].job.(returncode := step.returncode))
  {
  }

  /** The running jobs after a step are those before it, on the same workers, and one just admitted. */
  lemma StepRunning(s: State, step: Step, w: nat)
    requires Enabled(s, step) && w < |Apply(s, step).workers| && Apply(s, step).workers[w].Running?
    ensures w < |s.workers| && !s.workers[w].Waiting? && !s.workers[w].Gone?
    ensures Apply(s, step).workers[w].job == s.workers[w].job
    ensures s.workers[w] == Apply(s, step).workers[w]
         || (step == Check(w) && Apply(s, step).workers[w] == Checked(s.workers[w].job, s.threadExit))
  {
  }

  /** What the induction knows of a run so far. */
  ghost predicate Tracked(init: State, front: seq<Step>) {
    Legal(init, front) && WellPlanned(init.planned)
    && var s := Final(init, front);
       s.planned == init.planned && Unprocessed(s) && (s.threadExit <==> Interrupt in front)
  }

  /** Every result so far is earned, and every running job was admitted. */
  ghost predicate Accounted(init: State, steps: seq<Step>)
    requires Legal(init, steps)
  {
    var s := Final(init, steps);
    && (forall j :: IsResult(s, j) ==> Earned(init, steps, j))
    && (forall w :: 0 <= w < |s.workers| && s.workers[w].Running? ==> Admitted(init, steps, w, s.workers[w].job))
  }

  lemma StepAccounted(init: State, front: seq<Step>, step: Step)
    requires Tracked(init, front) && Accounted(init, front) && Enabled(Final(init, front), step)
    ensures var t := Apply(Final(init, front), step);
      && (forall j :: IsResult(t, j) ==> Earned(init, front + [step], j))
      && (forall w :: 0 <= w < |t.workers| && t.workers[w].Running? ==> Admitted(init, front + [step], w, t.workers[w].job))
  {
    hide Apply, Enabled, Checked, Earned, Admitted, IsResult, Unprocessed, Legal, Final;
    var before := Final(init, front);
    forall j | IsResult(Apply(before, step), j)
      ensures Earned(init, front + [step], j)
    {
      if IsResult(before, j) {
        EarnedGrows(init, front, step, j);
      } else {
        StepResults(before, step, j);
        NewResultIsEarned(init, front, step, j);
      }
    }
    forall w | 0 <= w < |Apply(before, step).workers| && Apply(before, step).workers[w].Running?
      ensures Admitted(init, front + [step], w, Apply(before, step).workers[w].job)
    {
      StepRunning(before, step, w);
      if before.workers[w] == Apply(before, step).workers[w] {
        AdmittedGrows(init, front, step, w, before.workers[w].job);
      } else {
        NewlyAdmitted(init, front, w);
      }
    }
  }

  /** In every run every result is earned, and every running job was admitted. */
  lemma {:induction false} ResultsAreEarned(planned: seq<Job>, processors: nat, steps: seq<Step>)
    requires WellPlanned(planned) && Legal(Init(planned, processors), steps)
    ensures Tracked(Init(planned, processors), steps) && Accounted(Init(planned, processors), steps)
    decreases |steps|
  {
    hide Apply, Enabled, Checked, Earned, Admitted, IsResult, Unprocessed, Legal;
    var init := Init(planned, processors);
    if steps == [] {
      NoResults(planned, processors);
    } else {
      var (front, step) := (steps[..|steps| - 1], steps[|steps| - 1]);
      assert steps == front + [step];
      LastStep(init, steps);
      ResultsAreEarned(planned, processors, front);
      var before := Final(init, front);
      StepKeepsUnprocessed(before, step);
      StepKeepsPool(before, step);
      StepSetsExit(before, step);
      StepAccounted(init, front, step);
    }
  }

  lemma NoResults(planned: seq<Job>, processors: nat)
    ensures var s := Init(planned, processors);
      Final(s, []) == s && s.planned == planned && Unprocessed(s) && !s.threadExit && (forall j :: !IsResult(s, j))
      && forall w :: 0 <= w < |s.workers| ==> s.workers[w] == Waiting
  {
  }

  lemma StepSetsExit(s: State, step: Step)
    requires Enabled(s, step)
    ensures Apply(s, step).threadExit <==> s.threadExit || step == Interrupt
  {
  }

  /** A worker's look at the flag, as the next step. */
  lemma ChecksNow(init: State, front: seq<Step>, w: nat)
    requires Tracked(init, front) && Enabled(Final(init, front), Check(w))
    ensures var s := Final(init, front); var j := s.workers[w].job;
      AsPlanned(s, j) && !j.isBreak && CheckedAt(init, front + [Check(w)], |front|, w, j.id, s.threadExit)
  {
    var s := Final(init, front);
    assert AsPlanned(s, s.workers[w].job);
    assert (front + [Check(w)])[..|front|] == front;
  }

  lemma NewlyAdmitted(init: State, front: seq<Step>, w: nat)
    requires Tracked(init, front) && Enabled(Final(init, front), Check(w))
    requires Checked(Final(init, front).workers[w].job, Final(init, front).threadExit).Running?
    ensures Admitted(init, front + [Check(w)], w, Final(init, front).workers[w].job)
  {
    hide CheckedAt;
    ChecksNow(init, front, w);
  }

  lemma NewResultIsEarned(init: State, front: seq<Step>, step: Step, j: Job)
    requires Tracked(init, front) && Enabled(Final(init, front), step)
    requires var s := Final(init, front);
      || (step.Check? && Checked(s.workers[step.w].job, s.threadExit) == Finished(j))
      || (step.Return? && j == s.workers[step.w].job.(returncode := step.returncode)
          && Admitted(init, front, step.w, s.workers[step.w].job))
    ensures Earned(init, front + [step], j)
  {
    hide CheckedAt;
    var s := Final(init, front);
    var all := front + [step];
    var w := step.w;
    if step.Check? {
      ChecksNow(init, front, w);
      assert CheckedAt(init, all, |front|, w, j.id, j.isBreak);
    } else {
      assert AsPlanned(s, s.workers[w].job);
      var c: nat :| CheckedAt(init, front, c, w, j.id, false);
      CheckedGrows(init, front, step, c, w, j.id, false);
      assert c < |front| by { CheckIsPast(init, front, c, w, j.id, false); }
      assert all[..|front|] == front;
      assert ReturnedAt(init, all, |front|, w, j.id, j.returncode);
    }
  }

  lemma CheckIsPast(init: State, front: seq<Step>, c: nat, w: nat, id: nat, wasSet: bool)
    requires CheckedAt(init, front, c, w, id, wasSet)
    ensures c < |front|
  {
  }

  /** A run that stands in state `s`. */
  ghost predicate Stands(init: State, steps: seq<Step>, s: State) {
    Legal(init, steps) && Final(init, steps) == s
  }

  lemma Take(init: State, steps: seq<Step>, s: State, step: Step) returns (more: seq<Step>, t: State)
    requires Stands(init, steps, s) && Enabled(s, step)
    ensures more == steps + [step] && t == Apply(s, step) && Stands(init, more, t)
  {
    more, t := steps + [step], Apply(s, step);
    assert more[..|steps|] == steps;
  }

  /** An interrupt while a job runs does not take its result away: with one worker and one job, any return
      code can still be collected and counted. */
  lemma RunningJobOutlivesInterrupt(returncode: int)
    ensures var init := Init([Job(0, false, false, 0)], 1);
      exists steps :: Legal(init, steps) && Interrupt in steps && Final(init, steps).ended
                      && Final(init, steps).collected == [Job(0, false, false, returncode)]
                      && Final(init, steps).tally.interrupted == 0
  {
    hide Legal, Final, Stands;
    var init := Init([Job(0, false, false, 0)], 1);
    assert Stands(init, [], init) by { EmptyRun(init); }
    var steps, s := Take(init, [], init, PutJob);
    steps, s := Take(init, steps, s, PutPill);
    steps, s := Take(init, steps, s, Get(0));
    steps, s := Take(init, steps, s, Check(0));
    steps, s := Take(init, steps, s, Interrupt);
    assert Interrupt in steps;
    steps, s := Take(init, steps, s, Return(0, returncode));
    steps, s := Take(init, steps, s, Put(0));
    steps, s := Take(init, steps, s, Collect);
    steps, s := Take(init, steps, s, Get(0));
    steps, s := Take(init, steps, s, Join);
    WhereItStands(init, steps, s);
  }

  lemma WhereItStands(init: State, steps: seq<Step>, s: State)
    requires Stands(init, steps, s)
    ensures Legal(init, steps) && Final(init, steps) == s
  {
  }

  lemma EmptyRun(s: State)
    ensures Stands(s, [], s)
  {
  }

  // ---------- the end ----------

  /** When the main thread is done: both queues are empty, every planned job was collected exactly once, and
      the counts add up to the number of tests. */
  lemma AtTheEnd(planned: seq<Job>, processors: nat, steps: seq<Step>)
    requires WellPlanned(planned) && Legal(Init(planned, processors), steps)
    requires Final(Init(planned, processors), steps).ended
    ensures var s := Final(Init(planned, processors), steps);
      && s.input == [] && s.output == []
      && (forall i :: 0 <= i < |planned| ==> Sum(IdWeight(Is(i)), s.collected) == 1)
      && s.tally.Total() == |s.collected| == |planned|
      && (forall o :: s.tally.Of(o) == Sum(OutcomeWeight(o), s.collected))
      && (!s.threadExit ==> forall k :: 0 <= k < |s.collected| ==> !s.collected[k].isBreak)
  {
    hide Weight;
    var s := Final(Init(planned, processors), steps);
    RunKeepsInv(planned, processors, steps);
    NothingLost(planned, processors, steps, Ones());
    FirstIdsOne(s.dispatched);
    QueuesEmpty(s);
    forall i | 0 <= i < |planned|
      ensures Sum(IdWeight(Is(i)), s.collected) == 1
    {
      JobInOnePlace(planned, processors, steps, i);
      NobodyHolds(s, Is(i));
    }
  }

  lemma {:induction false} SumZero<T>(f: T -> int, s: seq<T>)
    requires forall i :: 0 <= i < |s| ==> f(s[i]) == 0
    ensures Sum(f, s) == 0
    decreases |s|
  {
    if s != [] { SumZero(f, s[..|s| - 1]); }
  }

  lemma QueuesEmpty(s: State)
    requires Inv(s) && s.ended && Weight(s, Ones()) == s.dispatched
    ensures s.input == [] && s.output == []
  {
    SumAll(IdWeight(Ones()), s.collected);
    SumAll(IdWeight(Ones()), s.output);
    SumNonNegative(RealWeight(Ones()), s.input, 0);
    SumNonNegative(HeldWeight(Ones()), s.workers, 0);
    SumAll(GoneWeight, s.workers);
    if s.input != [] {
      SumNonNegative(RealWeight(Ones()), s.input, 0);
      SumNonNegative(PillWeight, s.input, 0);
    }
  }

  lemma NobodyHolds(s: State, f: nat -> int)
    requires Inv(s) && s.ended && s.input == [] && s.output == []
    ensures Weight(s, f) == Sum(IdWeight(f), s.collected)
  {
    SumZero(HeldWeight(f), s.workers);
  }
}
