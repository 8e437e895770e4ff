/** Instances are run once, before they are completed, and no thread gets stuck but by sleeping. */
module RfitExecution {
  import opened Wrappers
  import opened Sums
  import opened RfitPool
  import opened RfitInvariants
  import opened RfitConservation
  import opened RfitSound
  import opened RfitProperties

  // --------------------------------------------------------------- run exactly once

  /** Whether a worker has run an instance and has yet to complete it. */
  function RunPending(i: nat): Worker -> int {
    (w: Worker) => One(w.dealWith == Some(i) && (w.pc == Completing || (w.pc == Begin && !w.directRun)))
  }

  /** How often an instance was run to its end in some steps. */
  function Runs(states: seq<Pool>, steps: seq<Step>, m: nat, i: nat): nat
    requires m <= |steps| < |states|
  {
    if m == 0 then 0 else Runs(states, steps, m - 1, i) + One(Ends(states[m - 1], steps[m - 1], i))
  }

  predicate Ends(s: Pool, step: Step, i: nat) {
    step.Return? && step.k < |s.workers| && s.workers[step.k].dealWith == Some(i)
  }

  /** What is completed, and what is run and not completed yet. */
  ghost function RunSoFar(s: Pool, i: nat): int {
    Sum(s.workers, RunPending(i)) + if i < |s.reqs| then s.reqs[i].completed else 0
  }

  lemma RanIsKept(i: nat, w: Worker)
    ensures 0 <= RunPending(i)(w) <= Keeps(i)(w)
  {
  }

  lemma {:induction false} RanAtMostKept(workers: seq<Worker>, i: nat)
    ensures 0 <= Sum(workers, RunPending(i)) <= Sum(workers, Keeps(i))
  {
    if workers != [] {
      RanAtMostKept(workers[..|workers| - 1], i);
      RanIsKept(i, workers[|workers| - 1]);
    }
  }

  /** How a step of a worker changes what is run and completed: by the runs it ends. */
  predicate Accounts(s: Pool, t: Pool, k: nat, i: nat, ended: bool) {
    && k < |s.workers| == |t.workers| && t.workers == s.workers[k := t.workers[k]] && |t.reqs| == |s.reqs|
    && RunPending(i)(t.workers[k]) + (if i < |t.reqs| then t.reqs[i].completed else 0)
       == RunPending(i)(s.workers[k]) + (if i < |s.reqs| then s.reqs[i].completed else 0) + One(ended)
  }

  /** The steps that change nothing but the worker. */
  lemma OwnStepRan(s: Pool, step: Step, i: nat)
    requires Enabled(s, step)
    requires step.Top? || step.Return? || step.Leave? || step.Park? || step.Enlist? || step.Resume?
    requires Loaded(s.reqs, s.workers[step.k])
    ensures Accounts(s, Effect(s, step), step.k, i, Ends(s, step, i))
  {
    hide OwnInstance, Half;
  }

  lemma CompleteRan(s: Pool, step: Step, i: nat)
    requires Enabled(s, step) && (step.Complete? || step.Release?)
    requires Loaded(s.reqs, s.workers[step.k])
    ensures Accounts(s, Effect(s, step), step.k, i, false)
  {
    hide OwnInstance, Half, Loaded;
  }

  lemma FindRan(s: Pool, k: nat, pick: nat, i: nat)
    requires Enabled(s, Find(k, pick))
    ensures Accounts(s, Found(s, k, pick), k, i, false)
  {
    hide Fetch, Half, Choice, Direct, Queue;
  }

  lemma WorkerRan(s: Pool, step: Step, i: nat)
    requires Sound(s) && Enabled(s, step)
    requires step.Top? || step.Complete? || step.Release? || step.Find? || step.Return? || step.Leave? || step.Park?
             || step.Enlist? || step.Resume?
    ensures Accounts(s, Effect(s, step), step.k, i, Ends(s, step, i))
  {
    assert Loaded(s.reqs, s.workers[step.k]);
    hide Sound, Loaded, Accounts;
    if step.Find? {
      FindRan(s, step.k, step.pick, i);
    } else if step.Complete? || step.Release? {
      CompleteRan(s, step, i);
    } else {
      OwnStepRan(s, step, i);
    }
  }

  /** A step of a request leaves alone what workers have run. */
  predicate Alike(s: Pool, t: Pool, i: nat) {
    && |t.reqs| == |s.reqs| && (i < |s.reqs| ==> t.reqs[i].completed == s.reqs[i].completed)
    && |t.workers| == |s.workers|
    && forall k :: 0 <= k < |s.workers| ==> RunPending(i)(t.workers[k]) == RunPending(i)(s.workers[k])
  }

  lemma RequestRan(s: Pool, step: Step, i: nat)
    requires Enabled(s, step) && (step.Reserve? || step.Scale? || step.TakeIdle? || step.Post?)
    ensures Alike(s, Effect(s, step), i)
  {
    hide Queue, Cap, Concurrent;
  }

  lemma EquipRan(s: Pool, j: nat, i: nat)
    requires Sound(s) && Enabled(s, Equip(j))
    ensures Alike(s, Equipped(s, j), i)
  {
    HeldAsleep(s, j);
    hide Sound, Concurrent;
  }

  lemma {:induction false} SameSum(a: seq<Worker>, b: seq<Worker>, i: nat)
    requires |a| == |b| && forall k :: 0 <= k < |a| ==> RunPending(i)(a[k]) == RunPending(i)(b[k])
    ensures Sum(a, RunPending(i)) == Sum(b, RunPending(i))
  {
    if a != [] {
      SameSum(a[..|a| - 1], b[..|b| - 1], i);
    }
  }

  lemma AlikeRan(s: Pool, t: Pool, i: nat)
    requires Alike(s, t, i)
    ensures RunSoFar(t, i) == RunSoFar(s, i)
  {
    SameSum(s.workers, t.workers, i);
  }

  lemma AccountsRan(s: Pool, t: Pool, k: nat, i: nat, ended: bool)
    requires Accounts(s, t, k, i, ended)
    ensures RunSoFar(t, i) == RunSoFar(s, i) + One(ended)
  {
    SumUpdate(s.workers, k, t.workers[k], RunPending(i));
    hide Sum, RunPending;
  }

  lemma CreateRan(s: Pool, j: nat, i: nat)
    requires Enabled(s, Create(j))
    ensures RunSoFar(Created(s, j), i) == RunSoFar(s, i)
  {
    SumAppend(s.workers, NewWorker(s.reqs[j].f, j), RunPending(i));
    hide Sum;
  }

  lemma ArriveRan(s: Pool, f: Func, i: nat)
    ensures RunSoFar(Arrived(s, f), i) == RunSoFar(s, i)
  {
  }

  lemma StepRan(s: Pool, step: Step, i: nat)
    requires Sound(s) && Enabled(s, step)
    ensures RunSoFar(Effect(s, step), i) == RunSoFar(s, i) + One(Ends(s, step, i))
  {
    hide Sound, Enabled, RunSoFar, Alike, Accounts;
    hide Reserved, Scaled, IdleTaken, Created, Equipped, Posted, Topped, Completed, Released, Found, Left, Parked;
    hide Enlisted, Resumed, WithWorker;
    match step
    case Arrive(f) => ArriveRan(s, f, i);
    case Create(j) => CreateRan(s, j, i);
    case Equip(j) =>
      EquipRan(s, j, i);
      AlikeRan(s, Effect(s, step), i);
    case Reserve(_) =>
      RequestRan(s, step, i);
      AlikeRan(s, Effect(s, step), i);
    case Scale(_) =>
      RequestRan(s, step, i);
      AlikeRan(s, Effect(s, step), i);
    case TakeIdle(_) =>
      RequestRan(s, step, i);
      AlikeRan(s, Effect(s, step), i);
    case Post(_) =>
      RequestRan(s, step, i);
      AlikeRan(s, Effect(s, step), i);
    case _ =>
      WorkerRan(s, step, i);
      AccountsRan(s, Effect(s, step), step.k, i, Ends(s, step, i));
  }

  /** At every moment of every run the times an instance was run are those it was completed, and once more if a worker
      has run it and not completed it yet. */
  lemma {:induction false} RunsAccounted(states: seq<Pool>, steps: seq<Step>, m: nat, i: nat)
    requires IsRun(states, steps) && m < |states|
    ensures Runs(states, steps, m, i) == RunSoFar(states[m], i)
  {
    hide Enabled, Effect, RunSoFar, Ends, Sound, Conserved, Ledger;
    if m == 0 {
      NothingRun(i);
    } else {
      RunsAccounted(states, steps, m - 1, i);
      RunKeeps(states, steps, m - 1);
      assert StepAt(states, steps, m - 1);
      StepRan(states[m - 1], steps[m - 1], i);
    }
  }

  lemma NothingRun(i: nat)
    ensures RunSoFar(INITIAL, i) == 0
  {
  }

  /** So an instance is run at most once, and completed only after it was run. */
  lemma RunOnce(states: seq<Pool>, steps: seq<Step>, m: nat, i: nat)
    requires IsRun(states, steps) && m < |states| && i < |states[m].reqs|
    ensures states[m].reqs[i].released <= states[m].reqs[i].completed <= Runs(states, steps, m, i) <= 1
  {
    var s := states[m];
    RunsAccounted(states, steps, m, i);
    ReleasedAtMostOnce(states, steps, m, i);
    RunKeeps(states, steps, m);
    RanAtMostKept(s.workers, i);
    assert ConservedAt(s, i);
    hide Sound, Ledger, IsRun, Runs, Keeps, RunPending;
  }

  // ------------------------------------------------------------------- progress

  /** Where a worker can go from where it is. */
  predicate Follows(a: Pc, b: Pc) {
    match a
    case Begin => b == Completing || b == Finding
    case Completing => b == Releasing
    case Releasing => b == Finding
    case Finding => b == Running || b == Parking || b == Leaving
    case Running => b == Begin
    case Leaving => b == Parking
    case Parking => b == Idling
    case Idling => b == Sleeping
    case Sleeping => b == Finding
  }

  /** A step that moves a worker on. */
  predicate Moves(s: Pool, step: Step, k: nat) {
    && Enabled(s, step) && k < |s.workers| && k < |Effect(s, step).workers|
    && Follows(s.workers[k].pc, Effect(s, step).workers[k].pc)
  }

  /** Every step of a worker moves it on. */
  lemma OwnStepMoves(s: Pool, step: Step, k: nat)
    requires step.Top? || step.Return? || step.Leave? || step.Park? || step.Enlist? || step.Resume?
    requires Enabled(s, step) && step.k == k
    ensures Moves(s, step, k)
  {
    hide Cap, Concurrent;
  }

  lemma CompleteMovesOn(s: Pool, step: Step, k: nat)
    requires (step.Complete? || step.Release?) && Enabled(s, step) && step.k == k
    ensures Moves(s, step, k)
  {
    hide Cap, Concurrent;
  }

  lemma FindMoves(s: Pool, k: nat, pick: nat)
    requires Enabled(s, Find(k, pick))
    ensures Moves(s, Find(k, pick), k)
  {
    hide Fetch, Half, Choice, Direct, Queue;
  }

  lemma CanMove(s: Pool, k: nat, pick: nat) returns (step: Step)
    requires Sound(s) && k < |s.workers| && (s.workers[k].pc == Sleeping ==> s.workers[k].sem > 0)
    requires s.workers[k].pc == Finding ==> Enabled(s, Find(k, pick))
    ensures Moves(s, step, k)
  {
    OwnPossible(s, k);
    hide Sound, Moves, Choice;
    match s.workers[k].pc {
      case Begin => step := Top(k);
      case Completing => step := Complete(k);
      case Releasing => step := Release(k);
      case Finding => step := Find(k, pick);
      case Running => step := Return(k);
      case Leaving => step := Leave(k);
      case Parking => step := Park(k);
      case Idling => step := Enlist(k);
      case Sleeping => step := Resume(k);
    }
    if step.Find? {
      FindMoves(s, k, pick);
    } else if step.Complete? || step.Release? {
      CompleteMovesOn(s, step, k);
    } else {
      OwnStepMoves(s, step, k);
    }
  }

  lemma StaysAsleep(s: Pool, step: Step, k: nat)
    requires Enabled(s, step) && k < |s.workers| && s.workers[k].pc == Sleeping && s.workers[k].sem == 0
    ensures !Moves(s, step, k)
  {
    hide Fetch, Half, Choice;
  }

  /** At every moment of every run a worker can be moved on exactly if it does not sleep or has been woken. */
  lemma NeverStuck(states: seq<Pool>, steps: seq<Step>, m: nat, k: nat)
    requires IsRun(states, steps) && m < |states| && k < |states[m].workers|
    ensures (exists step :: Moves(states[m], step, k)) <==>
      states[m].workers[k].pc != Sleeping || states[m].workers[k].sem > 0
  {
    var s := states[m];
    RunKeeps(states, steps, m);
    hide IsRun, Sound, Ledger, Conserved, Enabled, Moves;
    if s.workers[k].pc != Sleeping || s.workers[k].sem > 0 {
      var pick: nat := 0;
      if s.workers[k].pc == Finding {
        FindPossible(s, k);
        var found: nat :| Enabled(s, Find(k, found));
        pick := found;
      }
      var step := CanMove(s, k, pick);
    } else if step :| Moves(s, step, k) {
      MovesEnabled(s, step, k);
      StaysAsleep(s, step, k);
    }
  }

  lemma MovesEnabled(s: Pool, step: Step, k: nat)
    requires Moves(s, step, k)
    ensures Enabled(s, step)
  {
  }

  /** Where the thread that makes a request can go from where it is. */
  predicate Proceeds(a: Stage, b: Stage) {
    match a
    case Admitting => b == Scaling || b == Served
    case Scaling => b == Needing
    case Needing => b == Creating || b.Holding?
    case Creating => b == Served
    case Holding(w) => b == Posting(w)
    case Posting(_) => b == Served
    case Served => false
  }

  /** And the thread of a request that is not done with it can take its next step, whatever the others do. */
  lemma RequestGoesOn(states: seq<Pool>, steps: seq<Step>, m: nat, i: nat) returns (step: Step)
    requires IsRun(states, steps) && m < |states| && i < |states[m].reqs| && states[m].reqs[i].stage != Served
    ensures Enabled(states[m], step) && i < |Effect(states[m], step).reqs|
    ensures Proceeds(states[m].reqs[i].stage, Effect(states[m], step).reqs[i].stage)
  {
    var s := states[m];
    RunKeeps(states, steps, m);
    assert ReqBounded(s.reqs[i], |s.workers|);
    hide IsRun, Sound, Ledger, Conserved, Cap, Concurrent, NewWorker;
    match s.reqs[i].stage
    case Admitting => step := Reserve(i);
    case Scaling => step := Scale(i);
    case Needing => step := TakeIdle(i);
    case Creating => step := Create(i);
    case Holding(_) => step := Equip(i);
    case Posting(_) => step := Post(i);
  }
}
