/** When the capacity left of a function falls below zero. */
module RfitCapacity {
  import opened Wrappers
  import opened RfitPool
  import opened RfitInvariants
  import opened RfitConservation
  import opened RfitSound
  import opened RfitProperties

  /** A worker leaves a function that has less capacity left than the worker brought. */
  predicate Overdraws(s: Pool, step: Step, f: Func) {
    step.Leave? && At(s, step.k, Leaving) && s.workers[step.k].workFor == Some(f) && Cap(s, f) < f.limit
  }

  lemma StepCapacity(s: Pool, step: Step, f: Func)
    requires Enabled(s, step) && Concurrent(f) && Cap(s, f) >= 0
    ensures Cap(Effect(s, step), f) >= 0 <==> !Overdraws(s, step, f)
  {
    hide Fetch, Choice;
  }

  /** In every run the capacity left of a function stays at or above zero exactly if no step overdraws it. */
  lemma AlwaysNonNegative(states: seq<Pool>, steps: seq<Step>, f: Func)
    requires IsRun(states, steps) && Concurrent(f)
    ensures (forall m :: 0 <= m < |states| ==> Cap(states[m], f) >= 0)
       <==> (forall m :: 0 <= m < |steps| ==> !Overdraws(states[m], steps[m], f))
  {
    hide Enabled, Effect, Overdraws, Cap;
    if forall m :: 0 <= m < |states| ==> Cap(states[m], f) >= 0 {
      forall m | 0 <= m < |steps| ensures !Overdraws(states[m], steps[m], f) {
        assert StepAt(states, steps, m);
        StepCapacity(states[m], steps[m], f);
        assert Cap(states[m + 1], f) >= 0;
      }
    }
    if forall m :: 0 <= m < |steps| ==> !Overdraws(states[m], steps[m], f) {
      forall m | 0 <= m < |states| ensures Cap(states[m], f) >= 0 {
        NonNegativeSoFar(states, steps, m, f);
      }
    }
  }

  lemma {:induction false} NonNegativeSoFar(states: seq<Pool>, steps: seq<Step>, m: nat, f: Func)
    requires IsRun(states, steps) && m < |states| && Concurrent(f)
    requires forall n :: 0 <= n < m ==> !Overdraws(states[n], steps[n], f)
    ensures Cap(states[m], f) >= 0
  {
    hide Enabled, Effect, Overdraws;
    if m > 0 {
      NonNegativeSoFar(states, steps, m - 1, f);
      assert StepAt(states, steps, m - 1);
      hide IsRun;
      StepCapacity(states[m - 1], steps[m - 1], f);
    }
  }

  /** The function whose capacity a step changes. */
  function Charged(s: Pool, step: Step): Option<Func>
    requires Enabled(s, step)
  {
    match step
    case Reserve(i) => if Cap(s, s.reqs[i].f) >= 1 then Some(s.reqs[i].f) else None
    case Scale(i) => Some(s.reqs[i].f)
    case Complete(k) => Attachment(s.workers[k])
    case Leave(k) => Attachment(s.workers[k])
    case _ => None
  }

  function Attachment(w: Worker): Option<Func> {
    if w.workFor.Some? && Concurrent(w.workFor.value) then w.workFor else None
  }

  /** What the code asserts after it has changed a capacity. */
  predicate Asserted(s: Pool, step: Step)
    requires Enabled(s, step)
  {
    Charged(s, step).Some? ==> Cap(Effect(s, step), Charged(s, step).value) >= 0
  }

  predicate AssertedAt(states: seq<Pool>, steps: seq<Step>, m: nat)
    requires IsRun(states, steps) && m < |steps|
  {
    assert StepAt(states, steps, m);
    Asserted(states[m], steps[m])
  }

  lemma Uncharged(s: Pool, step: Step, f: Func)
    requires Enabled(s, step) && Concurrent(f) && Charged(s, step) != Some(f)
    ensures Cap(Effect(s, step), f) == Cap(s, f)
  {
    hide Fetch, Choice;
  }

  lemma {:induction false} AssertedSoFar(states: seq<Pool>, steps: seq<Step>, m: nat, f: Func)
    requires IsRun(states, steps) && m < |states| && Concurrent(f)
    requires forall n :: 0 <= n < m ==> AssertedAt(states, steps, n)
    ensures Cap(states[m], f) >= 0
  {
    hide Enabled, Effect, Cap;
    if m > 0 {
      AssertedSoFar(states, steps, m - 1, f);
      assert StepAt(states, steps, m - 1) && AssertedAt(states, steps, m - 1);
      if Charged(states[m - 1], steps[m - 1]) != Some(f) {
        Uncharged(states[m - 1], steps[m - 1], f);
      }
    } else {
      NothingCharged(f);
    }
  }

  lemma NothingCharged(f: Func)
    ensures Cap(INITIAL, f) == 0
  {
  }

  /** So the assertions on the capacity all hold in a run exactly if no step of it overdraws any function. */
  lemma AssertionsHold(states: seq<Pool>, steps: seq<Step>)
    requires IsRun(states, steps)
    ensures (forall m :: 0 <= m < |steps| ==> AssertedAt(states, steps, m))
       <==> (forall m, f :: 0 <= m < |steps| && Concurrent(f) ==> !Overdraws(states[m], steps[m], f))
  {
    hide Enabled, Effect, Overdraws, Cap;
    if forall m :: 0 <= m < |steps| ==> AssertedAt(states, steps, m) {
      forall m, f | 0 <= m < |steps| && Concurrent(f) ensures !Overdraws(states[m], steps[m], f) {
        AssertedSoFar(states, steps, m, f);
        AssertedSoFar(states, steps, m + 1, f);
        assert StepAt(states, steps, m);
        StepCapacity(states[m], steps[m], f);
      }
    }
    if forall m, f :: 0 <= m < |steps| && Concurrent(f) ==> !Overdraws(states[m], steps[m], f) {
      forall m | 0 <= m < |steps| ensures AssertedAt(states, steps, m) {
        assert StepAt(states, steps, m);
        var charged := Charged(states[m], steps[m]);
        if charged.Some? {
          ChargedConcurrent(states, steps, m);
          NonNegativeSoFar(states, steps, m + 1, charged.value);
        }
      }
    }
  }

  lemma ChargedConcurrent(states: seq<Pool>, steps: seq<Step>, m: nat)
    requires IsRun(states, steps) && m < |steps| && Enabled(states[m], steps[m])
    requires Charged(states[m], steps[m]).Some?
    ensures Concurrent(Charged(states[m], steps[m]).value)
  {
    ChecksAlwaysPass(states, steps, m, steps[m]);
  }
}
