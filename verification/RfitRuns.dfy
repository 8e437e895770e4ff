/** Building runs of the worker pool, several steps at a time. */
module RfitRuns {
  import opened Wrappers
  import opened RfitPool
  import opened RfitProperties

  predicate Takes(s: Pool, step: Step, t: Pool) {
    Enabled(s, step) && Effect(s, step) == t
  }

  predicate RunsTo(states: seq<Pool>, steps: seq<Step>, s: Pool) {
    && IsRun(states, steps) && |states| == |steps| + 1 && states[|steps|] == s
    && forall m :: 0 <= m < |steps| ==> !steps[m].Leave?
  }

  /** Some run in which no worker leaves ends here. */
  ghost predicate Reached(s: Pool) {
    exists states, steps :: RunsTo(states, steps, s)
  }

  lemma RunExtends(states: seq<Pool>, steps: seq<Step>, step: Step, t: Pool)
    requires IsRun(states, steps) && |states| == |steps| + 1 && Takes(states[|steps|], step, t)
    ensures IsRun(states + [t], steps + [step])
  {
    hide Enabled, Effect;
    forall m | 0 <= m < |steps + [step]| ensures StepAt(states + [t], steps + [step], m) {
      assert m < |steps| ==> StepAt(states, steps, m);
    }
  }

  lemma ReachedStart()
    ensures Reached(INITIAL)
  {
    assert RunsTo([INITIAL], [], INITIAL);
  }

  lemma ReachedNext(s: Pool, step: Step, t: Pool)
    requires Reached(s) && Takes(s, step, t) && !step.Leave?
    ensures Reached(t)
  {
    hide Takes, IsRun;
    var states, steps :| RunsTo(states, steps, s);
    RunExtends(states, steps, step, t);
    assert RunsTo(states + [t], steps + [step], t);
  }

  /** A worker that finds an instance of its function. */
  function WithTaken(s: Pool, k: nat, f: Func, pick: nat, local: set<nat>, queue: seq<nat>): Pool
    requires k < |s.workers|
  {
    s.(queues := s.queues[f := queue],
       workers := s.workers[k := s.workers[k].(local := local, dealWith := Some(pick), pc := Running)])
  }

  predicate Searches(s: Pool, k: nat, f: Func) {
    && k < |s.workers| && s.workers[k].pc == Finding && s.workers[k].workFor == Some(f) && !s.workers[k].directRun
    && Concurrent(f)
  }

  lemma TakesOne(s: Pool, k: nat, f: Func, pick: nat, got: Fetched)
    requires Searches(s, k, f) && FuncOf(s, pick) == f
    requires Choice(s.workers[k].local, Queue(s, f), Half(f), pick)
    requires Fetch(s.workers[k].local, Queue(s, f), Half(f), pick) == got
    requires got.taken == Some(pick) && got.pulled <= |Queue(s, f)|
    ensures Takes(s, Find(k, pick), WithTaken(s, k, f, pick, got.local, Queue(s, f)[got.pulled..]))
  {
    hide Fetch, Choice;
  }

  lemma TakesNone(s: Pool, k: nat, f: Func)
    requires Searches(s, k, f) && s.workers[k].local == {} && Queue(s, f) == [] && f in s.queues
    ensures Takes(s, Find(k, 0), s.(workers := s.workers[k := s.workers[k].(pc := Leaving)]))
  {
    assert Pulled([], Half(f)) == [] && Elements([]) == {};
    assert Fetch({}, [], Half(f), 0) == Fetched(None, {}, 0);
    hide Fetch;
    assert s.queues[f := []] == s.queues;
  }

  // ---------------------------------------------------------------- admission

  /** A request that finds capacity. */
  function WithAdmitted(s: Pool, f: Func): Pool {
    s.(reqs := s.reqs + [Req(f, Served, 0, 0)],
       queues := s.queues[f := Queue(s, f) + [|s.reqs|]],
       caps := s.caps[f := Cap(s, f) - 1])
  }

  /** A request that finds none, and for which a new worker is made. */
  function WithGranted(s: Pool, f: Func): Pool {
    s.(reqs := s.reqs + [Req(f, Served, 0, 0)],
       queues := s.queues[f := Queue(s, f) + [|s.reqs|]],
       caps := s.caps[f := Cap(s, f) + f.limit - 1],
       workers := s.workers + [NewWorker(f, |s.reqs|)],
       busy := s.busy + {|s.workers|})
  }

  /** A pool whose last request has got as far as a stage. */
  function AtStageOf(s: Pool, f: Func, stage: Stage): Pool {
    s.(reqs := s.reqs + [Req(f, stage, 0, 0)], queues := s.queues[f := Queue(s, f) + [|s.reqs|]])
  }

  lemma ReachedAdmitted(s: Pool, f: Func)
    requires Reached(s) && Concurrent(f) && Cap(s, f) >= 1
    ensures Reached(WithAdmitted(s, f))
  {
    hide Reached;
    var i, t := |s.reqs|, AtStageOf(s, f, Admitting);
    ReachedNext(s, Arrive(f), t);
    assert t.reqs[i := Req(f, Served, 0, 0)] == WithAdmitted(s, f).reqs;
    assert Takes(t, Reserve(i), WithAdmitted(s, f));
    ReachedNext(t, Reserve(i), WithAdmitted(s, f));
  }

  lemma Staged(s: Pool, f: Func, a: Stage, b: Stage)
    ensures WithStage(AtStageOf(s, f, a), |s.reqs|, b) == AtStageOf(s, f, b)
  {
    assert AtStageOf(s, f, a).reqs[|s.reqs| := Req(f, b, 0, 0)] == AtStageOf(s, f, b).reqs;
  }

  lemma ReachedGranted(s: Pool, f: Func)
    requires Reached(s) && Concurrent(f) && Cap(s, f) < 1 && s.idle == []
    ensures Reached(WithGranted(s, f))
  {
    hide Reached, WithStage;
    var i := |s.reqs|;
    var scaled := WithCap(AtStageOf(s, f, Needing), f, f.limit - 1);
    var creating := scaled.(reqs := AtStageOf(s, f, Creating).reqs);
    ReachedNext(s, Arrive(f), AtStageOf(s, f, Admitting));
    Staged(s, f, Admitting, Scaling);
    ReachedNext(AtStageOf(s, f, Admitting), Reserve(i), AtStageOf(s, f, Scaling));
    Staged(s, f, Scaling, Needing);
    ReachedNext(AtStageOf(s, f, Scaling), Scale(i), scaled);
    StagedScaled(s, f);
    ReachedNext(scaled, TakeIdle(i), creating);
    ReachedNext(creating, Create(i), WithGranted(s, f));
  }

  lemma StagedScaled(s: Pool, f: Func)
    ensures var i := |s.reqs|;
      var scaled := WithCap(AtStageOf(s, f, Needing), f, f.limit - 1);
      var creating := scaled.(reqs := AtStageOf(s, f, Creating).reqs);
      && WithStage(scaled, i, Creating) == creating
      && WithStage(creating, i, Served) == creating.(reqs := WithGranted(s, f).reqs)
      && scaled.caps == WithGranted(s, f).caps
  {
    assert AtStageOf(s, f, Needing).reqs[|s.reqs| := Req(f, Creating, 0, 0)] == AtStageOf(s, f, Creating).reqs;
    assert AtStageOf(s, f, Creating).reqs[|s.reqs| := Req(f, Served, 0, 0)] == WithGranted(s, f).reqs;
  }
}
