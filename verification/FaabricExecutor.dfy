/** One executor's code, as steps of the protocol between the scheduler and all its executors. */
module FaabricExecutorClass {
  import opened Wrappers
  import opened Scheduling
  import opened ExecutorProtocol

  /** Steps taken one after the other. */
  predicate Leads(s: System, steps: seq<Step>, t: System)
    decreases |steps|
  {
    if steps == [] then s == t else Enabled(s, steps[0]) && Leads(Effect(s, steps[0]), steps[1..], t)
  }

  lemma {:induction false} LeadsConcat(s: System, a: seq<Step>, t: System, b: seq<Step>, u: System)
    requires Leads(s, a, t) && Leads(t, b, u)
    ensures Leads(s, a + b, u)
    decreases |a|
  {
    hide Enabled, Effect;
    if a == [] {
      assert a + b == b;
    } else {
      assert (a + b)[0] == a[0] && (a + b)[1..] == a[1..] + b;
      LeadsConcat(Effect(s, a[0]), a[1..], t, b, u);
    }
  }

  /** Steps keep the ledgers exact, wherever they start. */
  lemma {:induction false} LeadsKeepsLedgers(s: System, steps: seq<Step>, t: System)
    requires ExactLedgers(s) && Leads(s, steps, t)
    ensures ExactLedgers(t)
    decreases |steps|
  {
    hide ExactLedgers, Enabled, Effect;
    if steps != [] {
      StepKeepsLedgers(s, steps[0]);
      LeadsKeepsLedgers(Effect(s, steps[0]), steps[1..], t);
    }
  }

  /** How one turn of the loop ends: with another one to follow, with an error, or without a message in time. */
  datatype Turn = Continues | Fails(error: string) | TimesOut

  lemma BindLeads(l: Ledger, others: multiset<Exec>, valid: bool)
    requires l.bindQueue != []
    ensures var f := l.bindQueue[0];
      Leads(System(l, others + multiset{Unbound}), [if valid then Bind else BindFails],
            System(l.(bindQueue := l.bindQueue[1..]),
                   others + multiset{if valid then Waiting(f) else Exec.Leaving(f)}))
  {
    var step := if valid then Bind else BindFails;
    var f := l.bindQueue[0];
    var before := others + multiset{Unbound};
    var now := if valid then Waiting(f) else Exec.Leaving(f);
    assert Move(before, Unbound, now) == others + multiset{now};
    Departs(System(l, before), step, System(l.(bindQueue := l.bindQueue[1..]), others + multiset{now}));
  }

  lemma CallLeads(l: Ledger, f: Func, others: multiset<Exec>, succeeds: bool)
    requires Queue(l, f) != []
    ensures var now := if succeeds then Waiting(f) else Exec.Leaving(f);
      Leads(System(l, others + multiset{Waiting(f)}), [Dequeue(f), if succeeds then Succeeds(f) else Step.Fails(f)],
            System(CallFinished(Unqueued(l, f), f), others + multiset{now}))
    ensures Queue(CallFinished(Unqueued(l, f), f), f) == Queue(l, f)[1..]
  {
    var step := if succeeds then Succeeds(f) else Step.Fails(f);
    var now := if succeeds then Waiting(f) else Exec.Leaving(f);
    var s := System(l, others + multiset{Waiting(f)});
    var t := System(Unqueued(l, f), others + multiset{Executing(f)});
    var u := System(CallFinished(Unqueued(l, f), f), others + multiset{now});
    assert Move(s.execs, Waiting(f), Executing(f)) == t.execs;
    assert Move(t.execs, Executing(f), now) == u.execs;
    Departs(s, Dequeue(f), t);
    Departs(t, step, u);
    LeadsConcat(s, [Dequeue(f)], t, [step], u);
  }

  class FaabricExecutor {
    const scheduler: Scheduler
    /** The function of the bound message, once bound. It also says which queue is listened to. */
    var bound: Option<Func>

    constructor (scheduler: Scheduler)
      ensures this.scheduler == scheduler && bound == None
    {
      this.scheduler := scheduler;
      bound := None;
    }

    function AsExec(leaving: bool): Exec
      reads this`bound
    {
      if bound == None then Unbound else if leaving then Exec.Leaving(bound.value) else Waiting(bound.value)
    }

    /** Binding again is an error, unless forced and to the same function. The executor counts as bound from before the
        hook that may fail. */
    method BindToFunction(f: Func, force: bool, valid: bool) returns (r: Result<(), string>)
      modifies this`bound
      ensures var again := old(bound) != None && !(force && old(bound) == Some(f));
        && bound == (if again then old(bound) else Some(f)) && (r.Ok? <==> !again && valid)
    {
      if bound != None {
        if force {
          if bound.value != f {
            return Err("Cannot force bind to a different function");
          }
        } else {
          return Err("Cannot bind worker thread more than once");
        }
      }
      bound := Some(f);
      return if valid then Ok(()) else Err("Invalid function");
    }

    /** One turn, `valid` and `succeeds` being what the bind and the call turn out to do, `others` the other
        executors. The message served is the one its queue has held longest. */
    method ProcessNextMessage(valid: bool, succeeds: bool, ghost others: multiset<Exec>)
      returns (turn: Turn, served: seq<Message>, ghost steps: seq<Step>)
      modifies this`bound, scheduler`ledger
      ensures turn.TimesOut? ==> steps == [] && bound == old(bound) && scheduler.ledger == old(scheduler.ledger)
      ensures turn.TimesOut? <==> old(Waits())
      ensures !turn.TimesOut? ==> bound != None && (turn.Fails? <==> if old(bound) == None then !valid else !succeeds)
      ensures !turn.TimesOut? && old(bound) == None ==>
        bound == Some(old(scheduler.ledger).bindQueue[0]) && scheduler.ledger.queues == old(scheduler.ledger).queues
      ensures !turn.TimesOut? && old(bound) != None ==>
        bound == old(bound)
        && Queue(old(scheduler.ledger), bound.value) == served + Queue(scheduler.ledger, bound.value)
      ensures |served| == if !turn.TimesOut? && old(bound) != None then 1 else 0
      ensures Leads(System(old(scheduler.ledger), others + multiset{old(AsExec(false))}), steps,
                    System(scheduler.ledger, others + multiset{AsExec(turn.Fails?)}))
    {
      hide Leads, CallFinished;
      served := [];
      LeadsNowhere(System(scheduler.ledger, others + multiset{AsExec(false)}));
      if bound == None {
        if scheduler.ledger.bindQueue == [] {
          return TimesOut, [], [];
        }
        var f := scheduler.ledger.bindQueue[0];
        BindLeads(scheduler.ledger, others, valid);
        scheduler.ledger := scheduler.ledger.(bindQueue := scheduler.ledger.bindQueue[1..]);
        var r := BindToFunction(f, false, valid);
        turn := if r.Ok? then Continues else Turn.Fails("Invalid function");
        steps := [if valid then Bind else BindFails];
      } else {
        var f := bound.value;
        if Queue(scheduler.ledger, f) == [] {
          return TimesOut, [], [];
        }
        CallLeads(scheduler.ledger, f, others, succeeds);
        served := [Queue(scheduler.ledger, f)[0]];
        scheduler.ledger := scheduler.ledger.(queues := scheduler.ledger.queues[f := Queue(scheduler.ledger, f)[1..]]);
        turn := ExecuteCall(f, succeeds);
        steps := [Dequeue(f), if succeeds then Succeeds(f) else Step.Fails(f)];
      }
    }

    method ExecuteCall(f: Func, succeeds: bool) returns (turn: Turn)
      modifies scheduler`ledger
      ensures turn == if succeeds then Continues else Turn.Fails("Call failed")
      ensures scheduler.ledger == CallFinished(old(scheduler.ledger), f)
    {
      turn := if succeeds then Continues else Turn.Fails("Call failed");
      scheduler.NotifyCallFinished(f);
    }

    method Finish()
      modifies scheduler`ledger
      ensures scheduler.ledger ==
        if bound == None then old(scheduler.ledger) else FaasletFinished(old(scheduler.ledger), bound.value)
    {
      if bound != None {
        scheduler.NotifyFaasletFinished(bound.value);
      }
    }

    predicate Waits()
      reads this`bound, scheduler`ledger
    {
      if bound == None then scheduler.ledger.bindQueue == [] else Queue(scheduler.ledger, bound.value) == []
    }

    /** An executor's life when nothing is added to its queues meanwhile: it takes its steps in the protocol and is
        gone at the end; it has served messages of its queue first in, first out, and all of them if nothing fails. */
    method Run(valid: bool, succeeds: nat -> bool, ghost others: multiset<Exec>)
      returns (served: seq<Message>, ghost steps: seq<Step>)
      requires bound == None
      modifies this`bound, scheduler`ledger
      ensures Leads(System(old(scheduler.ledger), others + multiset{Unbound}), steps, System(scheduler.ledger, others))
      ensures ExactLedgers(System(old(scheduler.ledger), others + multiset{Unbound})) ==>
        ExactLedgers(System(scheduler.ledger, others))
      ensures bound != None <==> old(scheduler.ledger).bindQueue != []
      ensures bound != None ==> bound.value == old(scheduler.ledger).bindQueue[0]
      ensures bound == None ==> served == []
      ensures bound != None ==>
        Queue(old(scheduler.ledger), bound.value) == served + Queue(scheduler.ledger, bound.value)
      ensures bound != None && valid && (forall k :: succeeds(k)) ==> Queue(scheduler.ledger, bound.value) == []
    {
      hide Leads;
      ghost var s := System(scheduler.ledger, others + multiset{AsExec(false)});
      served, steps := [], [];
      var running, k := true, 0;
      assert Leads(s, [], s) by {
        LeadsNowhere(s);
      }
      ghost var leaving := false;
      while running
        invariant bound == None ==> scheduler.ledger == old(scheduler.ledger) && !leaving
        invariant bound == None && !running ==> scheduler.ledger.bindQueue == []
        invariant bound != None ==>
          old(scheduler.ledger).bindQueue != [] && bound.value == old(scheduler.ledger).bindQueue[0]
        invariant bound == None ==> served == []
        invariant bound != None ==>
          Queue(old(scheduler.ledger), bound.value) == served + Queue(scheduler.ledger, bound.value)
        invariant leaving ==> !running && (!valid || exists j :: !succeeds(j))
        invariant !running && !leaving ==> Waits()
        invariant Leads(s, steps, System(scheduler.ledger, others + multiset{AsExec(leaving)}))
        decreases running, bound == None, if bound == None then 0 else |Queue(scheduler.ledger, bound.value)|
      {
        ghost var t := System(scheduler.ledger, others + multiset{AsExec(false)});
        var turn;
        var next;
        ghost var taken;
        turn, next, taken := ProcessNextMessage(valid, succeeds(k), others);
        leaving := turn.Fails?;
        LeadsConcat(s, steps, t, taken, System(scheduler.ledger, others + multiset{AsExec(leaving)}));
        served, steps, k := served + next, steps + taken, k + 1;
        running := turn.Continues?;
      }
      ghost var t := System(scheduler.ledger, others + multiset{AsExec(leaving)});
      ghost var exit := Exit(bound, leaving);
      ExitLeads(scheduler.ledger, others, bound, leaving);
      Finish();
      LeadsConcat(s, steps, t, exit, System(scheduler.ledger, others));
      steps := steps + exit;
      if ExactLedgers(s) {
        LeadsKeepsLedgers(s, steps, System(scheduler.ledger, others));
      }
    }
  }

  /** The steps in which an executor that stops goes. */
  function Exit(bound: Option<Func>, leaving: bool): seq<Step> {
    match bound
    case None => [UnboundTimeout]
    case Some(f) => if leaving then [Leave(f)] else [Timeout(f), Leave(f)]
  }

  lemma ExitLeads(l: Ledger, others: multiset<Exec>, bound: Option<Func>, leaving: bool)
    requires bound == None ==> !leaving
    ensures var exec := if bound == None then Unbound else if leaving then Exec.Leaving(bound.value)
                        else Waiting(bound.value);
      Leads(System(l, others + multiset{exec}), Exit(bound, leaving),
            System(if bound == None then l else FaasletFinished(l, bound.value), others))
  {
    match bound
    case None =>
      assert others + multiset{Unbound} - multiset{Unbound} == others;
      Departs(System(l, others + multiset{Unbound}), UnboundTimeout, System(l, others));
    case Some(f) =>
      var gone := System(FaasletFinished(l, f), others);
      var going := System(l, others + multiset{Exec.Leaving(f)});
      assert others + multiset{Exec.Leaving(f)} - multiset{Exec.Leaving(f)} == others;
      Departs(going, Leave(f), gone);
      if !leaving {
        assert Move(others + multiset{Waiting(f)}, Waiting(f), Exec.Leaving(f)) == going.execs;
        Departs(System(l, others + multiset{Waiting(f)}), Timeout(f), going);
        LeadsConcat(System(l, others + multiset{Waiting(f)}), [Timeout(f)], going, [Leave(f)], gone);
      }
  }

  lemma LeadsNowhere(s: System)
    ensures Leads(s, [], s)
  {
  }

  lemma Departs(s: System, step: Step, t: System)
    requires Enabled(s, step) && Effect(s, step) == t
    ensures Leads(s, [step], t)
  {
    assert [step][1..] == [];
  }
}
