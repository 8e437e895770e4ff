/** When a request is left with nobody to serve it. */
module RfitService {
  import opened Wrappers
  import opened Sums
  import opened RfitPool
  import opened RfitInvariants
  import opened RfitConservation
  import opened RfitSound
  import opened RfitProperties

  function Uncompleted(f: Func): Req -> int {
    (r: Req) => One(r.f == f && r.completed == 0)
  }

  /** Requests whose instance is queued but which have not yet taken up capacity or been granted a worker. */
  function Unadmitted(f: Func): Req -> int {
    (r: Req) => One(r.f == f && (r.stage == Admitting || r.stage == Scaling))
  }

  /** While a request is not completed there is a worker for its function, granted or attached, or a request of the
      function that is yet to be admitted, and may still bring one. */
  ghost predicate Attended(s: Pool, f: Func) {
    Sum(s.reqs, Uncompleted(f)) > 0 ==> Workforce(s, f) > 0 || Sum(s.reqs, Unadmitted(f)) > 0
  }

  predicate NoneAdmitting(s: Pool, f: Func) {
    forall i :: 0 <= i < |s.reqs| && s.reqs[i].f == f ==> s.reqs[i].stage != Admitting && s.reqs[i].stage != Scaling
  }

  /** The one step that strands requests: the last worker leaves although the function's queue is not empty, and no
      request is about to be admitted that may still bring a worker. */
  ghost predicate Strands(s: Pool, step: Step, f: Func) {
    && step.Leave? && At(s, step.k, Leaving) && s.workers[step.k].workFor == Some(f)
    && Workforce(s, f) == 1 && Queue(s, f) != [] && NoneAdmitting(s, f)
  }

  lemma NoneAdmittingCount(s: Pool, f: Func)
    ensures NoneAdmitting(s, f) <==> Sum(s.reqs, Unadmitted(f)) == 0
  {
    if NoneAdmitting(s, f) {
      SumZero(s.reqs, Unadmitted(f));
    }
    if i :| 0 <= i < |s.reqs| && s.reqs[i].f == f && (s.reqs[i].stage == Admitting || s.reqs[i].stage == Scaling) {
      assert NonNegative(Unadmitted(f));
      SumMember(s.reqs, i, Unadmitted(f));
    }
  }

  lemma QueuedUncompleted(s: Pool, f: Func)
    requires Sound(s) && Conserved(s) && Queue(s, f) != []
    ensures Sum(s.reqs, Uncompleted(f)) > 0
  {
    var i := Queue(s, f)[0];
    assert OwnInstance(s.reqs, f, i);
    assert ConservedAt(s, i);
    assert NonNegative(Keeps(i)) && NonNegative(Uncompleted(f));
    SumNonNegative(s.workers, Keeps(i));
    assert i in multiset(Queue(s, f));
    SumMember(s.reqs, i, Uncompleted(f));
  }

  /** An instance that is not completed when its function has no workers sits in the function's queue. */
  lemma UncompletedQueued(s: Pool, i: nat)
    requires Sound(s) && Conserved(s) && i < |s.reqs| && s.reqs[i].completed == 0
    requires Concurrent(s.reqs[i].f) && Workforce(s, s.reqs[i].f) == 0
    ensures i in Queue(s, s.reqs[i].f)
  {
    var f := s.reqs[i].f;
    forall k | 0 <= k < |s.workers| ensures Keeps(i)(s.workers[k]) == 0 {
      KeeperAttached(s, i, k);
    }
    SumZero(s.workers, Keeps(i));
    assert ConservedAt(s, i);
    assert i in multiset(Queue(s, f));
  }

  lemma KeeperAttached(s: Pool, i: nat, k: nat)
    requires Sound(s) && i < |s.reqs| && k < |s.workers| && Workforce(s, s.reqs[i].f) == 0
    ensures Keeps(i)(s.workers[k]) == 0
  {
    var w, f := s.workers[k], s.reqs[i].f;
    assert Loaded(s.reqs, w);
    assert i in w.local ==> OwnInstance(s.reqs, w.workFor.value, i);
    assert NonNegative(Granted(f)) && NonNegative(Attached(f));
    SumMember(s.workers, k, Attached(f));
    SumNonNegative(s.reqs, Granted(f));
  }

  lemma {:induction false} SomeUncompleted(reqs: seq<Req>, f: Func) returns (i: nat)
    requires Sum(reqs, Uncompleted(f)) > 0
    ensures i < |reqs| && reqs[i].f == f && reqs[i].completed == 0
  {
    i := |reqs| - 1;
    if Uncompleted(f)(reqs[i]) == 0 {
      i := SomeUncompleted(reqs[..i], f);
    }
  }

  /** When the last worker is about to leave, what is not completed is queued. */
  lemma LastLeaver(s: Pool, k: nat, f: Func)
    requires Sound(s) && Conserved(s) && Concurrent(f) && Enabled(s, Leave(k))
    requires s.workers[k].workFor == Some(f) && Workforce(s, f) == 1
    ensures Queue(s, f) != [] <==> Sum(s.reqs, Uncompleted(f)) > 0
  {
    if Queue(s, f) != [] {
      QueuedUncompleted(s, f);
    }
    if Sum(s.reqs, Uncompleted(f)) > 0 {
      var i := SomeUncompleted(s.reqs, f);
      var t := Left(s, k);
      StepSound(s, Leave(k));
      StepConserves(s, Leave(k));
      LeaveBalanced(s, k, f);
      assert t.reqs == s.reqs && Queue(t, f) == Queue(s, f);
      hide Sound, Conserved, Workforce, Sum, Left, Outstanding;
      UncompletedQueued(t, i);
    }
  }

  lemma {:induction false} OutstandingSplit(reqs: seq<Req>, f: Func)
    requires forall i :: 0 <= i < |reqs| ==> reqs[i].completed <= 1
    ensures Sum(reqs, Admitted(f)) - Sum(reqs, Completions(f)) == Sum(reqs, Uncompleted(f)) - Sum(reqs, Unadmitted(f))
  {
    if reqs != [] {
      OutstandingSplit(reqs[..|reqs| - 1], f);
    }
  }

  lemma CompletedOnce(s: Pool, f: Func)
    requires Conserved(s)
    ensures Outstanding(s, f) == Sum(s.reqs, Uncompleted(f)) - Sum(s.reqs, Unadmitted(f))
  {
    forall i | 0 <= i < |s.reqs| ensures s.reqs[i].completed <= 1 {
      assert ConservedAt(s, i);
      assert NonNegative(Keeps(i));
      SumNonNegative(s.workers, Keeps(i));
    }
    OutstandingSplit(s.reqs, f);
  }

  lemma CountsNonNegative(s: Pool, f: Func)
    ensures Workforce(s, f) >= 0 && Sum(s.reqs, Uncompleted(f)) >= 0 && Sum(s.reqs, Unadmitted(f)) >= 0
  {
    assert NonNegative(Granted(f)) && NonNegative(Attached(f));
    assert NonNegative(Uncompleted(f)) && NonNegative(Unadmitted(f));
    SumNonNegative(s.reqs, Granted(f));
    SumNonNegative(s.workers, Attached(f));
    SumNonNegative(s.reqs, Uncompleted(f));
    SumNonNegative(s.reqs, Unadmitted(f));
  }

  /** How a step changes the number of requests that are yet to be admitted. */
  function Admissions(s: Pool, step: Step, f: Func): int
    requires Enabled(s, step)
  {
    match step
    case Arrive(g) => if g == f then -1 else 0
    case Reserve(i) => if s.reqs[i].f == f && Cap(s, f) >= 1 then 1 else 0
    case Scale(i) => if s.reqs[i].f == f then 1 else 0
    case _ => 0
  }

  lemma ArriveAdmissions(s: Pool, g: Func, f: Func)
    requires Concurrent(f)
    ensures Sum(Arrived(s, g).reqs, Unadmitted(f)) == Sum(s.reqs, Unadmitted(f)) + One(g == f)
  {
    var r := Req(g, if Concurrent(g) then Admitting else Needing, 0, 0);
    assert Arrived(s, g).reqs == s.reqs + [r];
    hide Sum;
    SumAppend(s.reqs, r, Unadmitted(f));
  }

  lemma AdmittedReq(s: Pool, step: Step)
    requires Enabled(s, step) && (step.Reserve? || step.Scale?)
    ensures var i, t := step.i, Effect(s, step);
      && i < |s.reqs| == |t.reqs|
      && t.reqs == s.reqs[i := s.reqs[i].(stage := if step.Scale? then Needing
                                                   else if Cap(s, s.reqs[i].f) < 1 then Scaling else Served)]
  {
  }

  lemma AdmissionSteps(s: Pool, step: Step, f: Func)
    requires Concurrent(f) && Enabled(s, step) && (step.Arrive? || step.Reserve? || step.Scale?)
    ensures Sum(Effect(s, step).reqs, Unadmitted(f)) == Sum(s.reqs, Unadmitted(f)) - Admissions(s, step, f)
  {
    if step.Arrive? {
      hide Arrived, Sum;
      ArriveAdmissions(s, step.f, f);
    } else {
      AdmittedReq(s, step);
      hide Effect, Sum;
      SumUpdate(s.reqs, step.i, Effect(s, step).reqs[step.i], Unadmitted(f));
    }
  }

  /** A step of a request that is past admission. */
  predicate HandsOver(r: Req, r': Req) {
    r'.f == r.f && r.stage != Admitting && r.stage != Scaling && r'.stage != Admitting && r'.stage != Scaling
  }

  lemma HandsOverStep(s: Pool, step: Step)
    requires Enabled(s, step) && (step.TakeIdle? || step.Create? || step.Equip? || step.Post?)
    ensures var t := Effect(s, step);
      step.i < |s.reqs| == |t.reqs| && t.reqs == s.reqs[step.i := t.reqs[step.i]]
      && HandsOver(s.reqs[step.i], t.reqs[step.i])
  {
  }

  lemma HandOverSteps(s: Pool, step: Step, f: Func)
    requires Concurrent(f) && Enabled(s, step) && (step.TakeIdle? || step.Create? || step.Equip? || step.Post?)
    ensures Sum(Effect(s, step).reqs, Unadmitted(f)) == Sum(s.reqs, Unadmitted(f))
  {
    HandsOverStep(s, step);
    hide Effect, Enabled, Sum;
    SumUpdate(s.reqs, step.i, Effect(s, step).reqs[step.i], Unadmitted(f));
  }

  lemma WorkSteps(s: Pool, step: Step, f: Func)
    requires Concurrent(f) && Enabled(s, step) && (step.Complete? || step.Release?)
    ensures Sum(Effect(s, step).reqs, Unadmitted(f)) == Sum(s.reqs, Unadmitted(f))
  {
    var t, i := Effect(s, step), s.workers[step.k].dealWith.value;
    SumUpdate(s.reqs, i, t.reqs[i], Unadmitted(f));
    hide Sum;
  }

  lemma StepAdmissions(s: Pool, step: Step, f: Func)
    requires Concurrent(f) && Enabled(s, step)
    ensures Sum(Effect(s, step).reqs, Unadmitted(f)) == Sum(s.reqs, Unadmitted(f)) - Admissions(s, step, f)
  {
    hide Enabled, Effect, Sum, Cap;
    if step.Arrive? || step.Reserve? || step.Scale? {
      AdmissionSteps(s, step, f);
    } else if step.TakeIdle? || step.Create? || step.Equip? || step.Post? {
      HandOverSteps(s, step, f);
    } else if step.Complete? || step.Release? {
      WorkSteps(s, step, f);
    } else {
      OwnKeepsReqs(s, step);
    }
  }

  lemma StepCap(s: Pool, step: Step, f: Func)
    requires Concurrent(f) && Enabled(s, step) && !step.Reserve? && !step.Scale? && !step.Leave?
    ensures Cap(Effect(s, step), f) >= Cap(s, f)
  {
    hide Fetch;
  }

  lemma ReserveCap(s: Pool, step: Step, f: Func)
    requires Concurrent(f) && Enabled(s, step) && step.Reserve?
    ensures Cap(Effect(s, step), f) == Cap(s, f) - Admissions(s, step, f)
  {
  }

  lemma LeaverAttached(s: Pool, k: nat, f: Func)
    requires At(s, k, Leaving) && s.workers[k].workFor == Some(f)
    ensures Workforce(s, f) >= 1
  {
    assert NonNegative(Granted(f)) && NonNegative(Attached(f));
    SumMember(s.workers, k, Attached(f));
    SumNonNegative(s.reqs, Granted(f));
  }

  /** What a step does to the counts that matter: workforce, requests not completed, requests not admitted. */
  lemma StepCounts(s: Pool, step: Step, f: Func)
    requires Sound(s) && Conserved(s) && Enabled(s, step) && Concurrent(f)
    ensures var t := Effect(s, step);
      && Workforce(t, f) == Workforce(s, f) + Hired(s, step, f) >= 0
      && Sum(t.reqs, Unadmitted(f)) == Sum(s.reqs, Unadmitted(f)) - Admissions(s, step, f) >= 0
      && Sum(t.reqs, Uncompleted(f)) == Outstanding(t, f) + Sum(t.reqs, Unadmitted(f)) >= 0
      && (Hired(s, step, f) == 0 ==> Outstanding(t, f) - Outstanding(s, f) == Cap(s, f) - Cap(t, f))
  {
    hide Sound, Conserved, Enabled, Effect, Workforce, Outstanding, Sum;
    StepConserves(s, step);
    CompletedOnce(Effect(s, step), f);
    StepBalanced(s, step, f);
    StepAdmissions(s, step, f);
    CountsNonNegative(Effect(s, step), f);
  }

  /** What the ledger says of the same counts. */
  lemma StateCounts(s: Pool, f: Func)
    requires Conserved(s) && Ledger(s) && Concurrent(f)
    ensures Workforce(s, f) >= 0 && Sum(s.reqs, Unadmitted(f)) >= 0 && Sum(s.reqs, Uncompleted(f)) >= 0
    ensures Sum(s.reqs, Uncompleted(f)) == Outstanding(s, f) + Sum(s.reqs, Unadmitted(f))
    ensures Workforce(s, f) == 0 ==> Cap(s, f) == Sum(s.reqs, Unadmitted(f)) - Sum(s.reqs, Uncompleted(f))
  {
    CompletedOnce(s, f);
    CountsNonNegative(s, f);
    assert LedgerFor(s, f);
    hide Conserved, Ledger, Workforce, Outstanding, Sum;
    if Workforce(s, f) == 0 {
      assert f.limit * Workforce(s, f) == 0;
    }
  }

  lemma CapOnReserve(s: Pool, step: Step, f: Func)
    requires Enabled(s, step) && step.Reserve?
    ensures Admissions(s, step, f) == 1 ==> Cap(s, f) >= 1
  {
  }

  lemma OtherServes(s: Pool, step: Step, f: Func)
    requires Sound(s) && Conserved(s) && Ledger(s) && Enabled(s, step) && Concurrent(f) && Attended(s, f)
    requires !step.Reserve? && !step.Leave?
    ensures Attended(Effect(s, step), f)
  {
    StateCounts(s, f);
    StepCounts(s, step, f);
    if !step.Scale? {
      StepCap(s, step, f);
    }
    hide Sound, Conserved, Ledger, Enabled, Effect, Workforce, Outstanding, Sum, Cap;
  }

  lemma ReserveServes(s: Pool, i: nat, f: Func)
    requires Sound(s) && Conserved(s) && Ledger(s) && Enabled(s, Reserve(i)) && Concurrent(f) && Attended(s, f)
    ensures Attended(Effect(s, Reserve(i)), f)
  {
    StateCounts(s, f);
    StepCounts(s, Reserve(i), f);
    ReserveCap(s, Reserve(i), f);
    CapOnReserve(s, Reserve(i), f);
    hide Sound, Conserved, Ledger, Enabled, Effect, Workforce, Outstanding, Sum, Cap;
  }

  lemma LeaveServes(s: Pool, k: nat, f: Func)
    requires Sound(s) && Conserved(s) && Ledger(s) && Enabled(s, Leave(k)) && Concurrent(f) && Attended(s, f)
    ensures Attended(Effect(s, Leave(k)), f) <==> !Strands(s, Leave(k), f)
  {
    NoneAdmittingCount(s, f);
    LeaveCounts(s, k, f);
    CountsNonNegative(s, f);
    if s.workers[k].workFor == Some(f) {
      LeaverAttached(s, k, f);
      if Workforce(s, f) == 1 {
        LastLeaver(s, k, f);
      }
    }
    hide Sound, Conserved, Ledger, Effect, Workforce, Outstanding, Sum, Cap, NoneAdmitting;
  }

  lemma LeaveCounts(s: Pool, k: nat, f: Func)
    requires Enabled(s, Leave(k)) && Concurrent(f)
    ensures var t := Effect(s, Leave(k));
      && t.reqs == s.reqs
      && Workforce(t, f) == Workforce(s, f) - if s.workers[k].workFor == Some(f) then 1 else 0
  {
    LeaveBalanced(s, k, f);
    hide Workforce, Outstanding;
  }

  /** A step from a state in which every request is served leads to another exactly if it is not a stranding one. */
  lemma StepServes(s: Pool, step: Step, f: Func)
    requires Sound(s) && Conserved(s) && Ledger(s) && Enabled(s, step) && Concurrent(f) && Attended(s, f)
    ensures Attended(Effect(s, step), f) <==> !Strands(s, step, f)
  {
    hide Sound, Conserved, Ledger, Enabled, Effect, Attended;
    match step
    case Reserve(i) => ReserveServes(s, i, f);
    case Leave(k) => LeaveServes(s, k, f);
    case _ => OtherServes(s, step, f);
  }

  /** In every run, requests of a function are served at every moment exactly if no step strands one. */
  lemma AlwaysServed(states: seq<Pool>, steps: seq<Step>, f: Func)
    requires IsRun(states, steps) && Concurrent(f)
    ensures (forall m :: 0 <= m < |states| ==> Attended(states[m], f))
       <==> (forall m :: 0 <= m < |steps| ==> !Strands(states[m], steps[m], f))
  {
    if forall m :: 0 <= m < |states| ==> Attended(states[m], f) {
      hide Sound, Conserved, Ledger, Enabled, Effect, Attended, Strands;
      forall m | 0 <= m < |steps| ensures !Strands(states[m], steps[m], f) {
        RunKeeps(states, steps, m);
        assert StepAt(states, steps, m);
        StepServes(states[m], steps[m], f);
        assert Attended(states[m + 1], f);
      }
    }
    if forall m :: 0 <= m < |steps| ==> !Strands(states[m], steps[m], f) {
      forall m | 0 <= m < |states| ensures Attended(states[m], f) {
        ServedSoFar(states, steps, m, f);
      }
    }
  }

  lemma {:induction false} ServedSoFar(states: seq<Pool>, steps: seq<Step>, m: nat, f: Func)
    requires IsRun(states, steps) && m < |states| && Concurrent(f)
    requires forall n :: 0 <= n < m ==> !Strands(states[n], steps[n], f)
    ensures Attended(states[m], f)
  {
    hide Sound, Conserved, Ledger, Enabled, Effect, Strands;
    if m > 0 {
      ServedSoFar(states, steps, m - 1, f);
      RunKeeps(states, steps, m - 1);
      assert StepAt(states, steps, m - 1);
      hide IsRun, Attended;
      StepServes(states[m - 1], steps[m - 1], f);
    }
  }

  /** And what is not completed when its function has no workers is stranded in the function's queue. */
  lemma StrandedInQueue(states: seq<Pool>, steps: seq<Step>, m: nat, i: nat)
    requires IsRun(states, steps) && m < |states| && i < |states[m].reqs|
    requires states[m].reqs[i].completed == 0
    requires Concurrent(states[m].reqs[i].f) && Workforce(states[m], states[m].reqs[i].f) == 0
    ensures i in Queue(states[m], states[m].reqs[i].f)
  {
    RunKeeps(states, steps, m);
    UncompletedQueued(states[m], i);
  }
}
