/** The scheduler's ledgers and any number of executors, interleaved in any order. */
module ExecutorProtocol {
  import opened Scheduling

  /** An executor: unbound, bound and waiting on its function's queue, executing a call, or on its way out, after a
      call that failed or a wait that timed out, until the scheduler is told. */
  datatype Exec = Unbound | Waiting(f: Func) | Executing(f: Func) | Leaving(f: Func)

  datatype System = System(l: Ledger, execs: multiset<Exec>)

  datatype Step =
    | Call(m: Message)
    | Spawn
    | UnboundTimeout
    | Bind
    | BindFails
    | Dequeue(f: Func)
    | Succeeds(f: Func)
    | Fails(f: Func)
    | Leave(f: Func)
    | Timeout(f: Func)

  /** A wait can time out although a call is queued: one that comes between the timeout and the lock. */
  predicate Enabled(s: System, step: Step) {
    match step
    case Call(_) => true
    case Spawn => true
    case UnboundTimeout => Unbound in s.execs
    case Bind => Unbound in s.execs && s.l.bindQueue != []
    case BindFails => Unbound in s.execs && s.l.bindQueue != []
    case Dequeue(f) => Waiting(f) in s.execs && Queue(s.l, f) != []
    case Succeeds(f) => Executing(f) in s.execs
    case Fails(f) => Executing(f) in s.execs
    case Leave(f) => Leaving(f) in s.execs
    case Timeout(f) => Waiting(f) in s.execs
  }

  function Move(execs: multiset<Exec>, a: Exec, b: Exec): multiset<Exec> {
    execs - multiset{a} + multiset{b}
  }

  function Unqueued(l: Ledger, f: Func): Ledger
    requires Queue(l, f) != []
  {
    l.(queues := l.queues[f := Queue(l, f)[1..]])
  }

  /** Binding marks the executor as bound before it can fail, so after a failing bind it leaves as any bound executor
      does. */
  function Effect(s: System, step: Step): System
    requires Enabled(s, step)
  {
    match step
    case Call(m) => s.(l := Accepted(s.l, m))
    case Spawn => s.(execs := s.execs + multiset{Unbound})
    case UnboundTimeout => s.(execs := s.execs - multiset{Unbound})
    case Bind =>
      System(s.l.(bindQueue := s.l.bindQueue[1..]), Move(s.execs, Unbound, Waiting(s.l.bindQueue[0])))
    case BindFails =>
      System(s.l.(bindQueue := s.l.bindQueue[1..]), Move(s.execs, Unbound, Leaving(s.l.bindQueue[0])))
    case Dequeue(f) => System(Unqueued(s.l, f), Move(s.execs, Waiting(f), Executing(f)))
    case Succeeds(f) => System(CallFinished(s.l, f), Move(s.execs, Executing(f), Waiting(f)))
    case Fails(f) => System(CallFinished(s.l, f), Move(s.execs, Executing(f), Leaving(f)))
    case Leave(f) => System(FaasletFinished(s.l, f), s.execs - multiset{Leaving(f)})
    case Timeout(f) => s.(execs := Move(s.execs, Waiting(f), Leaving(f)))
  }

  const INITIAL: System := System(Ledger(map[], map[], 0, 0, map[], []), multiset{})

  // ------------------------------------------------------------------ sums

  ghost function Total(counts: map<Func, int>): int
    decreases |counts|
  {
    if counts == map[] then 0
    else
      var f :| f in counts;
      counts[f] + Total(counts - {f})
  }

  lemma {:induction false} TotalPick(counts: map<Func, int>, f: Func)
    requires f in counts
    ensures Total(counts) == counts[f] + Total(counts - {f})
    decreases |counts|
  {
    var g :| g in counts && Total(counts) == counts[g] + Total(counts - {g});
    if g != f {
      TotalPick(counts - {g}, f);
      TotalPick(counts - {f}, g);
      assert counts - {g} - {f} == counts - {f} - {g};
    }
  }

  lemma TotalUpdate(counts: map<Func, int>, f: Func, v: int)
    ensures Total(counts[f := v]) == Total(counts) - Count(counts, f) + v
  {
    TotalPick(counts[f := v], f);
    if f in counts {
      TotalPick(counts, f);
      assert counts[f := v] - {f} == counts - {f};
    } else {
      assert counts[f := v] - {f} == counts;
    }
  }

  lemma {:induction false} TotalNonNegative(counts: map<Func, int>)
    requires forall f :: f in counts ==> counts[f] >= 0
    ensures Total(counts) >= 0
    decreases |counts|
  {
    if counts != map[] {
      var f :| f in counts;
      TotalPick(counts, f);
      TotalNonNegative(counts - {f});
    }
  }

  lemma TotalAtLeast(counts: map<Func, int>, f: Func)
    requires forall g :: g in counts ==> counts[g] >= 0
    ensures Total(counts) >= Count(counts, f)
  {
    if f in counts {
      TotalPick(counts, f);
      TotalNonNegative(counts - {f});
    } else {
      TotalNonNegative(counts);
    }
  }

  // ------------------------------------------------------------ exact ledgers

  /** How many binds to a function are pending. */
  function Pending(bindQueue: seq<Func>, f: Func): nat {
    multiset(bindQueue)[f]
  }

  function Bound(execs: multiset<Exec>, f: Func): nat {
    execs[Waiting(f)] + execs[Executing(f)] + execs[Leaving(f)]
  }

  predicate ExactFor(s: System, f: Func) {
    && Count(s.l.inFlight, f) == |Queue(s.l, f)| + s.execs[Executing(f)]
    && Count(s.l.faaslets, f) == Pending(s.l.bindQueue, f) + Bound(s.execs, f)
  }

  /** Every count is what it is meant to count, and the totals are the sums. */
  ghost predicate ExactLedgers(s: System) {
    && (forall f: Func :: ExactFor(s, f))
    && s.l.functionsInFlight == Total(s.l.inFlight)
    && s.l.boundExecutors == Total(s.l.faaslets)
  }

  lemma ExactAt(s: System, f: Func)
    requires ExactLedgers(s)
    ensures ExactFor(s, f)
  {
  }

  lemma CountsNonNegative(s: System)
    requires ExactLedgers(s)
    ensures forall f :: f in s.l.inFlight ==> s.l.inFlight[f] >= 0
    ensures forall f :: f in s.l.faaslets ==> s.l.faaslets[f] >= 0
  {
    forall f | f in s.l.inFlight ensures s.l.inFlight[f] >= 0 {
      assert ExactFor(s, f);
    }
    forall f | f in s.l.faaslets ensures s.l.faaslets[f] >= 0 {
      assert ExactFor(s, f);
    }
  }

  lemma AcceptedExact(s: System, m: Message)
    requires ExactLedgers(s)
    ensures ExactLedgers(s.(l := Accepted(s.l, m)))
  {
    hide Total;
    var t := s.(l := Accepted(s.l, m));
    TotalUpdate(s.l.inFlight, m.func, Count(s.l.inFlight, m.func) + 1);
    TotalUpdate(s.l.faaslets, m.func, Count(s.l.faaslets, m.func) + 1);
    forall f: Func ensures ExactFor(t, f) {
      assert ExactFor(s, f);
    }
  }

  lemma CallFinishedFor(s: System, f: Func, next: Exec, g: Func)
    requires ExactFor(s, f) && ExactFor(s, g)
    requires Executing(f) in s.execs && (next == Waiting(f) || next == Leaving(f))
    ensures ExactFor(System(CallFinished(s.l, f), Move(s.execs, Executing(f), next)), g)
  {
    var execs := Move(s.execs, Executing(f), next);
    assert execs[Executing(g)] == s.execs[Executing(g)] - if g == f then 1 else 0;
    assert Bound(execs, g) == Bound(s.execs, g);
  }

  lemma CallFinishedExact(s: System, f: Func, next: Exec)
    requires ExactLedgers(s) && Executing(f) in s.execs && (next == Waiting(f) || next == Leaving(f))
    ensures ExactLedgers(System(CallFinished(s.l, f), Move(s.execs, Executing(f), next)))
  {
    ExactAt(s, f);
    CountsNonNegative(s);
    TotalAtLeast(s.l.inFlight, f);
    TotalUpdate(s.l.inFlight, f, Count(s.l.inFlight, f) - 1);
    forall g: Func ensures ExactFor(System(CallFinished(s.l, f), Move(s.execs, Executing(f), next)), g) {
      ExactAt(s, g);
      hide ExactLedgers, ExactFor, Total, CallFinished, Move;
      CallFinishedFor(s, f, next, g);
    }
    assert Count(s.l.inFlight, f) >= 1;
    hide Total, ExactFor, Move;
  }

  lemma ExitExact(s: System, f: Func)
    requires ExactLedgers(s) && Leaving(f) in s.execs
    ensures ExactLedgers(System(FaasletFinished(s.l, f), s.execs - multiset{Leaving(f)}))
  {
    hide Total;
    var t := System(FaasletFinished(s.l, f), s.execs - multiset{Leaving(f)});
    assert ExactFor(s, f);
    CountsNonNegative(s);
    TotalAtLeast(s.l.faaslets, f);
    TotalUpdate(s.l.faaslets, f, Count(s.l.faaslets, f) - 1);
    forall g: Func ensures ExactFor(t, g) {
      assert ExactFor(s, g);
    }
  }

  lemma FirstPending(bindQueue: seq<Func>, f: Func)
    requires bindQueue != []
    ensures Pending(bindQueue, f) == Pending(bindQueue[1..], f) + if f == bindQueue[0] then 1 else 0
  {
    assert bindQueue == [bindQueue[0]] + bindQueue[1..];
  }

  lemma BindExactFor(s: System, step: Step, f: Func)
    requires ExactFor(s, f) && Enabled(s, step) && (step.Bind? || step.BindFails?)
    ensures ExactFor(Effect(s, step), f)
  {
    var g := s.l.bindQueue[0];
    var now := if step.Bind? then Waiting(g) else Leaving(g);
    FirstPending(s.l.bindQueue, f);
    assert Move(s.execs, Unbound, now)[now] == s.execs[now] + 1;
  }

  lemma BindExact(s: System, step: Step)
    requires ExactLedgers(s) && Enabled(s, step) && (step.Bind? || step.BindFails?)
    ensures ExactLedgers(Effect(s, step))
  {
    hide Total, ExactFor;
    forall g: Func ensures ExactFor(Effect(s, step), g) {
      BindExactFor(s, step, g);
    }
  }

  lemma DequeueExactFor(s: System, g: Func, f: Func)
    requires ExactFor(s, f) && Enabled(s, Dequeue(g))
    ensures ExactFor(Effect(s, Dequeue(g)), f)
  {
    var execs := Move(s.execs, Waiting(g), Executing(g));
    assert |Queue(Unqueued(s.l, g), f)| == |Queue(s.l, f)| - if f == g then 1 else 0;
    assert execs[Executing(f)] == s.execs[Executing(f)] + if f == g then 1 else 0;
    assert Bound(execs, f) == Bound(s.execs, f);
  }

  lemma TimeoutExactFor(s: System, g: Func, f: Func)
    requires ExactFor(s, f) && Enabled(s, Timeout(g))
    ensures ExactFor(Effect(s, Timeout(g)), f)
  {
    var execs := Move(s.execs, Waiting(g), Leaving(g));
    assert execs[Executing(f)] == s.execs[Executing(f)];
    assert Bound(execs, f) == Bound(s.execs, f);
  }

  lemma OtherExactFor(s: System, step: Step, f: Func)
    requires ExactFor(s, f) && Enabled(s, step)
    requires step.Spawn? || step.UnboundTimeout? || step.Dequeue? || step.Timeout?
    ensures ExactFor(Effect(s, step), f)
  {
    hide Unqueued, Accepted, CallFinished, FaasletFinished;
    match step {
      case Dequeue(g) =>
        hide ExactFor, Effect, Enabled;
        DequeueExactFor(s, g, f);
      case Timeout(g) =>
        hide ExactFor, Effect, Enabled;
        TimeoutExactFor(s, g, f);
      case _ =>
    }
  }

  lemma SameCounts(s: System, step: Step)
    requires Enabled(s, step) && (step.Spawn? || step.UnboundTimeout? || step.Dequeue? || step.Timeout?)
    ensures var l := Effect(s, step).l;
      && l.inFlight == s.l.inFlight && l.faaslets == s.l.faaslets
      && l.functionsInFlight == s.l.functionsInFlight && l.boundExecutors == s.l.boundExecutors
  {
  }

  lemma OtherExact(s: System, step: Step)
    requires ExactLedgers(s) && Enabled(s, step)
    requires step.Spawn? || step.UnboundTimeout? || step.Dequeue? || step.Timeout?
    ensures ExactLedgers(Effect(s, step))
  {
    SameCounts(s, step);
    hide Effect, Enabled, ExactFor, Total;
    forall f: Func ensures ExactFor(Effect(s, step), f) {
      OtherExactFor(s, step, f);
    }
  }

  lemma StepKeepsLedgers(s: System, step: Step)
    requires ExactLedgers(s) && Enabled(s, step)
    ensures ExactLedgers(Effect(s, step))
  {
    hide ExactLedgers, Accepted, CallFinished, FaasletFinished;
    match step
    case Call(m) => AcceptedExact(s, m);
    case Bind => BindExact(s, step);
    case BindFails => BindExact(s, step);
    case Succeeds(f) => CallFinishedExact(s, f, Waiting(f));
    case Fails(f) => CallFinishedExact(s, f, Leaving(f));
    case Leave(f) => ExitExact(s, f);
    case Timeout(_) => OtherExact(s, step);
    case Spawn => OtherExact(s, step);
    case UnboundTimeout => OtherExact(s, step);
    case Dequeue(_) => OtherExact(s, step);
  }

  // ------------------------------------------------------------------- runs

  /** The states a list of steps leads through. */
  predicate IsRun(states: seq<System>, steps: seq<Step>) {
    && |states| == |steps| + 1 && states[0] == INITIAL
    && forall k :: 0 <= k < |steps| ==> StepAt(states, steps, k)
  }

  predicate StepAt(states: seq<System>, steps: seq<Step>, k: nat)
    requires k < |steps| && |states| == |steps| + 1
  {
    Enabled(states[k], steps[k]) && states[k + 1] == Effect(states[k], steps[k])
  }

  /** In every interleaving, at every moment, all four ledgers are exact. */
  lemma {:induction false} LedgersAlwaysExact(states: seq<System>, steps: seq<Step>, k: nat)
    requires IsRun(states, steps) && k < |states|
    ensures ExactLedgers(states[k])
  {
    if k > 0 {
      LedgersAlwaysExact(states, steps, k - 1);
      hide ExactLedgers, Enabled, Effect;
      assert StepAt(states, steps, k - 1);
      StepKeepsLedgers(states[k - 1], steps[k - 1]);
    }
  }

  // --------------------------------------------------------------- staffing

  /** Executors that wait for a call of the function, or are about to. */
  function Staff(s: System, f: Func): nat {
    Pending(s.l.bindQueue, f) + s.execs[Waiting(f)]
  }

  predicate StaffedFor(s: System, f: Func) {
    |Queue(s.l, f)| <= Staff(s, f)
  }

  /** No queued call is left without an executor to take it. */
  ghost predicate Staffed(s: System) {
    forall f: Func :: StaffedFor(s, f)
  }

  /** The steps that leave a call without an executor: a call accepted without a new faaslet, because those counted
      include some on their way out, when nobody spare is waiting; and a bind that fails, or a wait that times out,
      when its function has nobody spare. */
  predicate Strands(s: System, step: Step) {
    match step
    case Call(m) =>
      Count(s.l.faaslets, m.func) > Count(s.l.inFlight, m.func) && |Queue(s.l, m.func)| == Staff(s, m.func)
    case BindFails => s.l.bindQueue != [] && |Queue(s.l, s.l.bindQueue[0])| == Staff(s, s.l.bindQueue[0])
    case Timeout(f) => |Queue(s.l, f)| == Staff(s, f)
    case _ => false
  }

  lemma AcceptedStaffing(s: System, m: Message, f: Func)
    requires ExactFor(s, m.func) && StaffedFor(s, f)
    ensures StaffedFor(s.(l := Accepted(s.l, m)), f) <==> !(Strands(s, Call(m)) && f == m.func)
  {
    var l := Accepted(s.l, m);
    assert |Queue(l, f)| == |Queue(s.l, f)| + if f == m.func then 1 else 0;
    if f != m.func {
      assert Pending(l.bindQueue, f) == Pending(s.l.bindQueue, f);
    } else if Count(s.l.faaslets, f) > Count(s.l.inFlight, f) {
      assert l.bindQueue == s.l.bindQueue;
    } else {
      assert Pending(l.bindQueue, f) == Pending(s.l.bindQueue, f) + 1;
    }
  }

  lemma BindStaffing(s: System, f: Func)
    requires StaffedFor(s, f) && Enabled(s, Bind)
    ensures StaffedFor(Effect(s, Bind), f)
    ensures StaffedFor(Effect(s, BindFails), f) <==> !(Strands(s, BindFails) && f == s.l.bindQueue[0])
  {
    FirstPending(s.l.bindQueue, f);
    assert Queue(Effect(s, BindFails).l, f) == Queue(s.l, f);
    assert Effect(s, BindFails).execs[Waiting(f)] == s.execs[Waiting(f)];
  }

  lemma DequeueStaffing(s: System, g: Func, f: Func)
    requires StaffedFor(s, f) && Enabled(s, Dequeue(g))
    ensures StaffedFor(Effect(s, Dequeue(g)), f)
  {
    assert |Queue(Effect(s, Dequeue(g)).l, f)| == |Queue(s.l, f)| - if f == g then 1 else 0;
  }

  /** What an executor's own steps do to one function's staff. */
  lemma OwnStaffing(s: System, step: Step, f: Func)
    requires StaffedFor(s, f) && Enabled(s, step)
    requires step.Spawn? || step.UnboundTimeout? || step.Succeeds? || step.Fails? || step.Leave?
    ensures StaffedFor(Effect(s, step), f)
  {
  }

  lemma TimeoutStaffing(s: System, g: Func, f: Func)
    requires StaffedFor(s, f) && Enabled(s, Timeout(g))
    ensures StaffedFor(Effect(s, Timeout(g)), f) <==> !(Strands(s, Timeout(g)) && f == g)
  {
    var execs := Move(s.execs, Waiting(g), Leaving(g));
    assert execs[Waiting(f)] == s.execs[Waiting(f)] - if f == g then 1 else 0;
  }

  /** What a step does to one function's queue and staff. */
  lemma StaffingOf(s: System, step: Step, f: Func)
    requires ExactLedgers(s) && StaffedFor(s, f) && Enabled(s, step)
    ensures StaffedFor(Effect(s, step), f) <==> !(Strands(s, step) && f == Touched(s, step))
  {
    hide ExactLedgers, ExactFor, Accepted, Total, StaffedFor, CallFinished, FaasletFinished;
    match step
    case Call(m) =>
      ExactAt(s, m.func);
      AcceptedStaffing(s, m, f);
    case Bind => BindStaffing(s, f);
    case BindFails => BindStaffing(s, f);
    case Dequeue(g) => DequeueStaffing(s, g, f);
    case Timeout(g) => TimeoutStaffing(s, g, f);
    case _ => OwnStaffing(s, step, f);
  }

  /** The function a step is about. */
  function Touched(s: System, step: Step): Func {
    match step
    case Call(m) => m.func
    case Bind => if s.l.bindQueue != [] then s.l.bindQueue[0] else ""
    case BindFails => if s.l.bindQueue != [] then s.l.bindQueue[0] else ""
    case Spawn => ""
    case UnboundTimeout => ""
    case Dequeue(f) => f
    case Succeeds(f) => f
    case Fails(f) => f
    case Leave(f) => f
    case Timeout(f) => f
  }

  /** A step from a staffed state leaves it staffed exactly if it is not one that strands a call. */
  lemma StepStaffing(s: System, step: Step)
    requires ExactLedgers(s) && Staffed(s) && Enabled(s, step)
    ensures Staffed(Effect(s, step)) <==> !Strands(s, step)
  {
    hide ExactLedgers, Enabled, Effect, Strands, Touched, StaffedFor, ExactFor;
    forall f: Func
      ensures StaffedFor(Effect(s, step), f) <==> !(Strands(s, step) && f == Touched(s, step))
    {
      assert StaffedFor(s, f);
      StaffingOf(s, step, f);
    }
    assert StaffedFor(Effect(s, step), Touched(s, step)) <==> !Strands(s, step);
  }

  /** A run never leaves a queued call without an executor exactly if none of its steps strands one. */
  lemma {:induction false} AlwaysStaffed(states: seq<System>, steps: seq<Step>)
    requires IsRun(states, steps)
    ensures (forall k :: 0 <= k < |states| ==> Staffed(states[k]))
       <==> (forall k :: 0 <= k < |steps| ==> !Strands(states[k], steps[k]))
  {
    if forall k :: 0 <= k < |states| ==> Staffed(states[k]) {
      forall k | 0 <= k < |steps| ensures !Strands(states[k], steps[k]) {
        hide ExactLedgers, Enabled, Effect, Strands, Staffed;
        assert StepAt(states, steps, k);
        LedgersAlwaysExact(states, steps, k);
        StepStaffing(states[k], steps[k]);
      }
    }
    if forall k :: 0 <= k < |steps| ==> !Strands(states[k], steps[k]) {
      forall k | 0 <= k < |states| ensures Staffed(states[k]) {
        NothingStrandedSoFar(states, steps, k);
      }
    }
  }

  lemma {:induction false} NothingStrandedSoFar(states: seq<System>, steps: seq<Step>, k: nat)
    requires IsRun(states, steps) && k < |states|
    requires forall j :: 0 <= j < k ==> !Strands(states[j], steps[j])
    ensures Staffed(states[k])
  {
    if k > 0 {
      NothingStrandedSoFar(states, steps, k - 1);
      LedgersAlwaysExact(states, steps, k - 1);
      hide ExactLedgers, Enabled, Effect, Strands, Staffed;
      assert StepAt(states, steps, k - 1);
      StepStaffing(states[k - 1], steps[k - 1]);
    }
  }

  /** In a staffed state there is a faaslet for every call in flight, and a non-empty queue has an executor waiting
      on it or a bind that will bring one. */
  lemma StaffedServes(s: System, f: Func)
    requires ExactLedgers(s) && Staffed(s)
    ensures Count(s.l.inFlight, f) <= Count(s.l.faaslets, f)
    ensures Queue(s.l, f) != [] ==> Waiting(f) in s.execs || f in s.l.bindQueue
  {
    assert ExactFor(s, f) && StaffedFor(s, f);
    if Queue(s.l, f) != [] && Waiting(f) !in s.execs {
      assert f in multiset(s.l.bindQueue);
    }
  }

  /** With binds that succeed, waits that time out on empty queues only, and no call accepted while an executor of
      its function is on its way out, every reachable state has a faaslet for each call in flight. */
  lemma OneFaasletPerCall(states: seq<System>, steps: seq<Step>, k: nat, f: Func)
    requires IsRun(states, steps) && k < |states|
    requires forall j :: 0 <= j < |steps| ==> Orderly(states[j], steps[j])
    ensures Count(states[k].l.inFlight, f) <= Count(states[k].l.faaslets, f)
    ensures Queue(states[k].l, f) != [] ==> Waiting(f) in states[k].execs || f in states[k].l.bindQueue
  {
    forall j | 0 <= j < |steps| ensures !Strands(states[j], steps[j]) {
      assert Orderly(states[j], steps[j]);
      LedgersAlwaysExact(states, steps, j);
      assert StepAt(states, steps, j);
      OrderlyStrandsNone(states[j], steps[j]);
    }
    NothingStrandedSoFar(states, steps, k);
    LedgersAlwaysExact(states, steps, k);
    StaffedServes(states[k], f);
  }

  predicate Orderly(s: System, step: Step) {
    match step
    case Call(m) => Leaving(m.func) !in s.execs
    case BindFails => false
    case Timeout(f) => Queue(s.l, f) == []
    case _ => true
  }

  lemma OrderlyStrandsNone(s: System, step: Step)
    requires ExactLedgers(s) && Enabled(s, step) && Orderly(s, step)
    ensures !Strands(s, step)
  {
    if step.Call? {
      assert ExactFor(s, step.m.func);
    }
  }

  // ---------------------------------------------------------- stranded calls

  predicate Takes(s: System, step: Step, t: System) {
    Enabled(s, step) && Effect(s, step) == t
  }

  /** Runs in which binds succeed and waits time out on empty queues only, with or without failing calls or timeouts. */
  predicate Allowed(s: System, step: Step, failures: bool, timeouts: bool) {
    match step
    case Fails(_) => failures
    case Timeout(f) => timeouts && Queue(s.l, f) == []
    case BindFails => false
    case _ => true
  }

  predicate AllAllowed(states: seq<System>, steps: seq<Step>, failures: bool, timeouts: bool)
    requires |states| == |steps| + 1
  {
    forall k :: 0 <= k < |steps| ==> AllowedAt(states, steps, k, failures, timeouts)
  }

  predicate AllowedAt(states: seq<System>, steps: seq<Step>, k: nat, failures: bool, timeouts: bool)
    requires k < |steps| && |states| == |steps| + 1
  {
    Allowed(states[k], steps[k], failures, timeouts)
  }

  ghost predicate Reached(s: System, failures: bool, timeouts: bool) {
    exists states: seq<System>, steps: seq<Step> :: RunsTo(states, steps, s, failures, timeouts)
  }

  predicate RunsTo(states: seq<System>, steps: seq<Step>, s: System, failures: bool, timeouts: bool) {
    && IsRun(states, steps) && |states| == |steps| + 1 && states[|states| - 1] == s
    && AllAllowed(states, steps, failures, timeouts)
  }

  lemma ReachedStart(failures: bool, timeouts: bool)
    ensures Reached(INITIAL, failures, timeouts)
  {
    assert RunsTo([INITIAL], [], INITIAL, failures, timeouts);
  }

  lemma RunExtends(states: seq<System>, steps: seq<Step>, step: Step, t: System)
    requires IsRun(states, steps) && Takes(states[|states| - 1], step, t)
    ensures IsRun(states + [t], steps + [step])
  {
    hide Enabled, Effect;
    forall k | 0 <= k < |steps + [step]| ensures StepAt(states + [t], steps + [step], k) {
      assert k < |steps| ==> StepAt(states, steps, k);
    }
  }

  lemma AllowedExtends(
    states: seq<System>, steps: seq<Step>, step: Step, t: System, failures: bool, timeouts: bool)
    requires |states| == |steps| + 1 && AllAllowed(states, steps, failures, timeouts)
    requires Allowed(states[|states| - 1], step, failures, timeouts)
    ensures AllAllowed(states + [t], steps + [step], failures, timeouts)
  {
    hide Allowed;
    forall k | 0 <= k < |steps + [step]| ensures AllowedAt(states + [t], steps + [step], k, failures, timeouts) {
      assert k < |steps| ==> AllowedAt(states, steps, k, failures, timeouts);
    }
  }

  lemma ReachedNext(s: System, step: Step, t: System, failures: bool, timeouts: bool)
    requires Reached(s, failures, timeouts) && Takes(s, step, t) && Allowed(s, step, failures, timeouts)
    ensures Reached(t, failures, timeouts)
  {
    hide Takes, Allowed, IsRun, AllAllowed;
    var states, steps :| RunsTo(states, steps, s, failures, timeouts);
    RunExtends(states, steps, step, t);
    AllowedExtends(states, steps, step, t, failures, timeouts);
    assert RunsTo(states + [t], steps + [step], t, failures, timeouts);
  }

  /** A system in which only calls of one function have happened. */
  function Only(
    f: Func, inFlight: int, faaslets: int, queue: seq<Message>, binds: seq<Func>, execs: multiset<Exec>): System
  {
    System(Ledger(map[f := inFlight], map[f := faaslets], inFlight, faaslets, map[f := queue], binds), execs)
  }

  lemma FirstCallServed(m: Message)
    ensures var f := m.func;
      && Takes(INITIAL, Call(m), Only(f, 1, 1, [m], [f], multiset{}))
      && Takes(Only(f, 1, 1, [m], [f], multiset{}), Spawn, Only(f, 1, 1, [m], [f], multiset{Unbound}))
      && Takes(Only(f, 1, 1, [m], [f], multiset{Unbound}), Bind, Only(f, 1, 1, [m], [], multiset{Waiting(f)}))
  {
    var f := m.func;
    assert Queue(INITIAL.l, f) + [m] == [m];
    var counted := Incremented(Enqueued(INITIAL.l, m), f);
    assert counted == Ledger(map[f := 1], map[], 1, 0, map[f := [m]], []);
    assert Scaled(counted, f) == Ledger(map[f := 1], map[f := 1], 1, 1, map[f := [m]], [f]);
  }

  lemma FirstCallEnds(m: Message)
    ensures var f := m.func;
      && Takes(Only(f, 1, 1, [m], [], multiset{Waiting(f)}), Dequeue(f),
               Only(f, 1, 1, [], [], multiset{Executing(f)}))
      && Takes(Only(f, 1, 1, [], [], multiset{Executing(f)}), Fails(f), Only(f, 0, 1, [], [], multiset{Leaving(f)}))
  {
    hide Accepted, FaasletFinished;
  }

  lemma SecondCallStranded(m: Message)
    ensures var f := m.func;
      && Takes(Only(f, 0, 1, [], [], multiset{Leaving(f)}), Call(m), Only(f, 1, 1, [m], [], multiset{Leaving(f)}))
      && Takes(Only(f, 1, 1, [m], [], multiset{Leaving(f)}), Leave(f), Only(f, 1, 0, [m], [], multiset{}))
  {
    var f := m.func;
    var s := Only(f, 0, 1, [], [], multiset{Leaving(f)});
    assert Queue(s.l, f) + [m] == [m];
    var counted := Incremented(Enqueued(s.l, m), f);
    assert counted == Only(f, 1, 1, [m], [], multiset{}).l;
    assert Scaled(counted, f) == counted;
    hide CallFinished, Unqueued, Scaled, Incremented, Enqueued;
  }

  lemma FirstCallReached(m: Message, failures: bool, timeouts: bool)
    ensures Reached(Only(m.func, 1, 1, [], [], multiset{Executing(m.func)}), failures, timeouts)
  {
    hide Reached, Takes, Only;
    var f := m.func;
    FirstCallServed(m);
    FirstCallEnds(m);
    ReachedStart(failures, timeouts);
    ReachedNext(INITIAL, Call(m), Only(f, 1, 1, [m], [f], multiset{}), failures, timeouts);
    ReachedNext(Only(f, 1, 1, [m], [f], multiset{}), Spawn, Only(f, 1, 1, [m], [f], multiset{Unbound}), failures,
                timeouts);
    ReachedNext(Only(f, 1, 1, [m], [f], multiset{Unbound}), Bind, Only(f, 1, 1, [m], [], multiset{Waiting(f)}),
                failures, timeouts);
    ReachedNext(Only(f, 1, 1, [m], [], multiset{Waiting(f)}), Dequeue(f),
                Only(f, 1, 1, [], [], multiset{Executing(f)}), failures, timeouts);
  }

  lemma ExitReached(m: Message, failures: bool, timeouts: bool)
    requires Reached(Only(m.func, 0, 1, [], [], multiset{Leaving(m.func)}), failures, timeouts)
    ensures exists s :: Reached(s, failures, timeouts) && Stranded(s, m.func)
  {
    hide Reached, Takes;
    var f := m.func;
    SecondCallStranded(m);
    ReachedNext(Only(f, 0, 1, [], [], multiset{Leaving(f)}), Call(m), Only(f, 1, 1, [m], [], multiset{Leaving(f)}),
                failures, timeouts);
    var s := Only(f, 1, 0, [m], [], multiset{});
    ReachedNext(Only(f, 1, 1, [m], [], multiset{Leaving(f)}), Leave(f), s, failures, timeouts);
    assert Stranded(s, f);
  }

  /** A failed executor's exit can strand a call: one call fails, another is accepted before the executor's exit is
      known, and is left queued with no executor bound and no bind pending. */
  lemma FailedExitStrands(m: Message)
    ensures exists s :: Reached(s, true, false) && Stranded(s, m.func)
  {
    hide Reached, Takes, Only;
    var f := m.func;
    FirstCallReached(m, true, false);
    FirstCallEnds(m);
    ReachedNext(Only(f, 1, 1, [], [], multiset{Executing(f)}), Fails(f), Only(f, 0, 1, [], [], multiset{Leaving(f)}),
                true, false);
    ExitReached(m, true, false);
  }

  /** So can that of an executor that timed out on an empty queue, after a call that succeeded. */
  lemma TimedOutExitStrands(m: Message)
    ensures exists s :: Reached(s, false, true) && Stranded(s, m.func)
  {
    hide Reached, Takes;
    var f := m.func;
    FirstCallReached(m, false, true);
    var executing, idle := Only(f, 1, 1, [], [], multiset{Executing(f)}), Only(f, 0, 1, [], [], multiset{Waiting(f)});
    var leaving := Only(f, 0, 1, [], [], multiset{Leaving(f)});
    assert Takes(executing, Succeeds(f), idle) && Takes(idle, Timeout(f), leaving) by {
      IdleExit(f);
    }
    ReachedNext(executing, Succeeds(f), idle, false, true);
    ReachedNext(idle, Timeout(f), leaving, false, true);
    ExitReached(m, false, true);
  }

  lemma IdleExit(f: Func)
    ensures Takes(Only(f, 1, 1, [], [], multiset{Executing(f)}), Succeeds(f),
                  Only(f, 0, 1, [], [], multiset{Waiting(f)}))
    ensures Takes(Only(f, 0, 1, [], [], multiset{Waiting(f)}), Timeout(f),
                  Only(f, 0, 1, [], [], multiset{Leaving(f)}))
  {
  }

  predicate Stranded(s: System, f: Func) {
    Queue(s.l, f) != [] && Bound(s.execs, f) == 0 && Pending(s.l.bindQueue, f) == 0
  }
}
