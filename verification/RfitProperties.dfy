/** What holds of the worker pool at every moment of every run. */
module RfitProperties {
  import opened Wrappers
  import opened Sums
  import opened RfitPool
  import opened RfitInvariants
  import opened RfitConservation
  import opened RfitSound

  /** The states a list of steps leads through. */
  predicate IsRun(states: seq<Pool>, steps: seq<Step>) {
    && |states| == |steps| + 1 && states[0] == INITIAL
    && forall m :: 0 <= m < |steps| ==> StepAt(states, steps, m)
  }

  predicate StepAt(states: seq<Pool>, steps: seq<Step>, m: nat)
    requires m < |steps| && |states| == |steps| + 1
  {
    Enabled(states[m], steps[m]) && states[m + 1] == Effect(states[m], steps[m])
  }

  lemma InitialKept()
    ensures Sound(INITIAL) && Conserved(INITIAL) && Ledger(INITIAL)
  {
    forall f ensures LedgerFor(INITIAL, f) {
      assert Cap(INITIAL, f) == 0 && Workforce(INITIAL, f) == 0 && Outstanding(INITIAL, f) == 0;
    }
  }

  lemma {:induction false} RunKeeps(states: seq<Pool>, steps: seq<Step>, m: nat)
    requires IsRun(states, steps) && m < |states|
    ensures Sound(states[m]) && Conserved(states[m]) && Ledger(states[m])
  {
    hide Sound, Conserved, Ledger, Enabled, Effect;
    if m == 0 {
      InitialKept();
    } else {
      RunKeeps(states, steps, m - 1);
      assert StepAt(states, steps, m - 1);
      StepSound(states[m - 1], steps[m - 1]);
      StepConserves(states[m - 1], steps[m - 1]);
      StepLedger(states[m - 1], steps[m - 1]);
    }
  }

  // ----------------------------------------------------------- capacity ledger

  /** At every moment of every run, the capacity left of a concurrent function is its limit for each worker granted or
      attached to it, less the requests admitted and not yet completed. */
  lemma CapacityLedger(states: seq<Pool>, steps: seq<Step>, m: nat, f: Func)
    requires IsRun(states, steps) && m < |states| && Concurrent(f)
    ensures var s := states[m];
      Cap(s, f) == f.limit * Workforce(s, f) - Outstanding(s, f)
  {
    RunKeeps(states, steps, m);
    hide Sound, Conserved, IsRun, Workforce, Outstanding, Cap;
    assert LedgerFor(states[m], f);
  }

  /** So with no worker granted or attached the capacity is negative exactly if some admitted request is not
      completed, more of them than were completed before they were admitted. */
  lemma CapacityWithoutWorkers(states: seq<Pool>, steps: seq<Step>, m: nat, f: Func)
    requires IsRun(states, steps) && m < |states| && Concurrent(f) && Workforce(states[m], f) == 0
    ensures Cap(states[m], f) < 0 <==> Outstanding(states[m], f) > 0
  {
    CapacityLedger(states, steps, m, f);
  }

  // -------------------------------------------------------------- exactly once

  /** How many places an instance is in: its requester's hand, its function's queue, a worker's map or hands, or
      gone. */
  ghost function Places(s: Pool, i: nat): int
    requires i < |s.reqs|
  {
    Hand(s.reqs[i]) + Queued(s, s.reqs[i].f, i) + Sum(s.workers, Keeps(i)) + Sum(s.workers, Releases(i))
    + s.reqs[i].released
  }

  predicate Has(w: Worker, i: nat) {
    i in w.local || (Live(w) && w.dealWith == Some(i))
  }

  function Has01(i: nat): Worker -> int {
    (w: Worker) => Keeps(i)(w) + Releases(i)(w)
  }

  lemma {:induction false} SumsHas(workers: seq<Worker>, i: nat)
    ensures Sum(workers, Has01(i)) == Sum(workers, Keeps(i)) + Sum(workers, Releases(i))
  {
    if workers != [] {
      SumsHas(workers[..|workers| - 1], i);
    }
  }

  /** At every moment of every run each instance is in exactly one place, and no two workers have it. */
  lemma ExactlyOnce(states: seq<Pool>, steps: seq<Step>, m: nat, i: nat, j: nat, k: nat)
    requires IsRun(states, steps) && m < |states| && i < |states[m].reqs| && j < k < |states[m].workers|
    ensures Places(states[m], i) == 1
    ensures !(Has(states[m].workers[j], i) && Has(states[m].workers[k], i))
  {
    RunKeeps(states, steps, m);
    var s := states[m];
    hide Sound, Ledger, IsRun;
    assert ConservedAt(s, i);
    assert NonNegative(Has01(i));
    SumPair(s.workers, j, k, Has01(i));
    SumsHas(s.workers, i);
  }

  /** It is completed and released at most once, and released only after it was completed. */
  lemma ReleasedAtMostOnce(states: seq<Pool>, steps: seq<Step>, m: nat, i: nat)
    requires IsRun(states, steps) && m < |states| && i < |states[m].reqs|
    ensures Places(states[m], i) == 1
    ensures states[m].reqs[i].released <= states[m].reqs[i].completed <= 1
  {
    RunKeeps(states, steps, m);
    var s := states[m];
    hide Sound, Ledger, IsRun;
    assert ConservedAt(s, i);
    assert NonNegative(Keeps(i)) && NonNegative(Releases(i));
    SumNonNegative(s.workers, Keeps(i));
    SumNonNegative(s.workers, Releases(i));
  }

  /** A worker's map holds at most twice half the limit, and what it holds and deals with is of the function it works
      for. */
  lemma LocalBound(states: seq<Pool>, steps: seq<Step>, m: nat, k: nat)
    requires IsRun(states, steps) && m < |states| && k < |states[m].workers|
    ensures var w := states[m].workers[k];
      && (w.local != {} ==> w.workFor.Some? && |w.local| <= 2 * (w.workFor.value.limit / 2))
      && (forall i: nat :: Has(w, i) ==> i < |states[m].reqs| && w.workFor == Some(states[m].reqs[i].f))
  {
    RunKeeps(states, steps, m);
    var s, w := states[m], states[m].workers[k];
    hide Ledger, IsRun, Conserved;
    assert Loaded(s.reqs, w);
    forall i: nat | Has(w, i) ensures i < |s.reqs| && w.workFor == Some(s.reqs[i].f) {
      assert i in w.local ==> OwnInstance(s.reqs, w.workFor.value, i);
    }
  }

  // --------------------------------------------------------------- park and wake

  /** At every moment of every run a worker is not both idle and busy, nor idle twice; its semaphore is 0 or 1, and 1
      only while it sleeps after a waker took it from the idle queue; and each stay in the idle queue consumes one
      post. */
  lemma ParkWake(states: seq<Pool>, steps: seq<Step>, m: nat, k: nat)
    requires IsRun(states, steps) && m < |states| && k < |states[m].workers|
    ensures var s, w := states[m], states[m].workers[k];
      && multiset(s.idle)[k] <= 1 && !(k in s.idle && k in s.busy)
      && w.sem <= 1 && (w.sem == 1 ==> w.pc == Sleeping && k !in s.idle && k in s.busy)
      && w.resumes <= w.posts <= w.parks <= w.resumes + 1
      && (w.pc != Sleeping ==> w.parks == w.posts == w.resumes)
  {
    RunKeeps(states, steps, m);
    var s := states[m];
    hide Ledger, IsRun, Conserved;
    assert Listed(s, k);
    assert NonNegative(Holds(k)) && NonNegative(Posts(k));
    SumNonNegative(s.reqs, Holds(k));
    SumNonNegative(s.reqs, Posts(k));
    assert k in s.idle <==> multiset(s.idle)[k] > 0 by {
      assert k in s.idle <==> k in multiset(s.idle);
    }
  }

  /** No two requesters are waking the same worker. */
  lemma OneWaker(states: seq<Pool>, steps: seq<Step>, m: nat, i: nat, j: nat)
    requires IsRun(states, steps) && m < |states| && i < j < |states[m].reqs|
    ensures var a, b := states[m].reqs[i].stage, states[m].reqs[j].stage;
      (a.Holding? || a.Posting?) && (b.Holding? || b.Posting?) ==> a.w != b.w
  {
    RunKeeps(states, steps, m);
    var s := states[m];
    var a, b := s.reqs[i].stage, s.reqs[j].stage;
    hide Ledger, IsRun, Conserved;
    if (a.Holding? || a.Posting?) && (b.Holding? || b.Posting?) && a.w == b.w {
      var k := a.w;
      assert ReqBounded(s.reqs[i], |s.workers|);
      assert Listed(s, k);
      assert NonNegative(Wakes(k));
      SumPair(s.reqs, i, j, Wakes(k));
      SumsWakes(s.reqs, k);
      assert false;
    }
  }

  function Wakes(k: nat): Req -> int {
    (r: Req) => Holds(k)(r) + Posts(k)(r)
  }

  lemma {:induction false} SumsWakes(reqs: seq<Req>, k: nat)
    ensures Sum(reqs, Wakes(k)) == Sum(reqs, Holds(k)) + Sum(reqs, Posts(k))
  {
    if reqs != [] {
      SumsWakes(reqs[..|reqs| - 1], k);
    }
  }

  // ------------------------------------------------------ what the code asserts

  /** What the code asserts of a worker's status, of the busy map, of the kind of a function whose capacity changes and
      of a fetched instance. What it asserts of the capacity itself is the subject of RfitCapacity. */
  predicate ChecksPass(s: Pool, step: Step)
    requires Enabled(s, step)
  {
    match step
    case TakeIdle(_) => s.idle != [] ==> s.idle[0] < |s.workers| && s.workers[s.idle[0]].status == Idle
    case Equip(i) => s.workers[s.reqs[i].stage.w].status == Neither && s.reqs[i].stage.w !in s.busy
    case Create(_) => |s.workers| !in s.busy
    case Park(k) => s.workers[k].status == Busy && k in s.busy && s.workers[k].workFor.Some?
    case Enlist(k) => s.workers[k].status == Neither && k !in s.busy
    case Reserve(i) => Concurrent(s.reqs[i].f)
    case Scale(i) => Concurrent(s.reqs[i].f)
    case Find(k, pick) =>
      var w := s.workers[k];
      Concurrent(w.workFor.value) ==> FetchChecksPass(w.local, Queue(s, w.workFor.value), Half(w.workFor.value), pick)
    case _ => true
  }

  /** With something pulled, or with more than half the limit left in the map, there is an instance. */
  predicate FetchChecksPass(local: set<nat>, queue: seq<nat>, half: nat, pick: nat) {
    var got := Fetch(local, queue, half, pick);
    got.pulled > 0 || (local != {} && |local - {pick}| > half) ==> got.taken != None
  }

  lemma FetchPasses(local: set<nat>, queue: seq<nat>, half: nat, pick: nat)
    ensures FetchChecksPass(local, queue, half, pick)
  {
  }

  lemma ChecksAlwaysPass(states: seq<Pool>, steps: seq<Step>, m: nat, step: Step)
    requires IsRun(states, steps) && m < |states| && Enabled(states[m], step)
    ensures ChecksPass(states[m], step)
  {
    RunKeeps(states, steps, m);
    var s := states[m];
    hide Ledger, IsRun, Conserved, FetchChecksPass;
    match step {
      case TakeIdle(_) =>
        if s.idle != [] {
          IdleAlone(s);
          assert Listed(s, s.idle[0]);
        }
      case Equip(i) => HeldAsleep(s, i);
      case Park(k) => assert Listed(s, k);
      case Enlist(k) =>
        NoWakers(s, k);
        assert Listed(s, k);
      case Reserve(i) => assert ReqBounded(s.reqs[i], |s.workers|);
      case Scale(i) => assert ReqBounded(s.reqs[i], |s.workers|);
      case Find(k, pick) =>
        var f := s.workers[k].workFor.value;
        FetchPasses(s.workers[k].local, Queue(s, f), Half(f), pick);
      case _ =>
    }
  }

  /** Idle workers are taken in the order in which they parked: a request takes the first, and one that parks goes to
      the end. */
  lemma IdleInOrder(s: Pool, step: Step)
    requires Enabled(s, step)
    ensures var t := Effect(s, step);
      match step
      case TakeIdle(i) =>
        && t.idle == (if s.idle == [] then [] else s.idle[1..])
        && AtStage(t, i, if s.idle == [] then Creating else Holding(s.idle[0]))
      case Enlist(k) => t.idle == s.idle + [k]
      case _ => t.idle == s.idle
  {
  }

  lemma FindPossible(s: Pool, k: nat)
    requires Sound(s) && At(s, k, Finding)
    ensures exists pick :: Enabled(s, Find(k, pick))
  {
    NoWakers(s, k);
    assert Listed(s, k);
    hide Sound;
    var w := s.workers[k];
    var pick := SomePick(w.local, Queue(s, w.workFor.value), Half(w.workFor.value));
    assert Enabled(s, Find(k, pick));
  }

  /** No pointer a worker follows is null: it works for a function, and completes and releases an instance. */
  lemma NeverNull(states: seq<Pool>, steps: seq<Step>, m: nat, k: nat)
    requires IsRun(states, steps) && m < |states|
    ensures At(states[m], k, Completing) ==> Enabled(states[m], Complete(k))
    ensures At(states[m], k, Releasing) ==> Enabled(states[m], Release(k))
    ensures At(states[m], k, Leaving) ==> Enabled(states[m], Leave(k))
    ensures At(states[m], k, Finding) ==> exists pick :: Enabled(states[m], Find(k, pick))
  {
    RunKeeps(states, steps, m);
    hide Ledger, IsRun, Conserved;
    OwnPossible(states[m], k);
    hide Sound, Enabled;
    if At(states[m], k, Finding) {
      FindPossible(states[m], k);
    }
  }

  lemma OwnPossible(s: Pool, k: nat)
    requires Sound(s)
    ensures At(s, k, Completing) ==> Enabled(s, Complete(k))
    ensures At(s, k, Releasing) ==> Enabled(s, Release(k))
    ensures At(s, k, Leaving) ==> Enabled(s, Leave(k))
  {
    assert k < |s.workers| ==> Loaded(s.reqs, s.workers[k]);
    hide Sound, OwnInstance, Half, Choice;
  }

  ghost function SomePick(local: set<nat>, queue: seq<nat>, half: nat): (pick: nat)
    ensures Choice(local, queue, half, pick)
  {
    if local != {} then var x :| x in local; x
    else if Pulled(queue, half) != [] then Pulled(queue, half)[0] else 0
  }
}
