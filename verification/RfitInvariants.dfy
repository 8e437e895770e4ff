/** What every interleaving of requests and workers keeps. */
module RfitInvariants {
  import opened Wrappers
  import opened Sums
  import opened RfitPool

  // ----------------------------------------------------------------- weights

  function One(b: bool): nat {
    if b then 1 else 0
  }

  function Holds(k: nat): Req -> int {
    (r: Req) => One(r.stage == Holding(k))
  }

  function Posts(k: nat): Req -> int {
    (r: Req) => One(r.stage == Posting(k))
  }

  /** Requests of a function that were granted a worker who is not attached yet. */
  function Granted(f: Func): Req -> int {
    (r: Req) => One(r.f == f && (r.stage == Needing || r.stage == Creating || r.stage.Holding?))
  }

  function Admitted(f: Func): Req -> int {
    (r: Req) => One(r.f == f && r.stage != Admitting && r.stage != Scaling)
  }

  function Completions(f: Func): Req -> int {
    (r: Req) => if r.f == f then r.completed else 0
  }

  function Attached(f: Func): Worker -> int {
    (w: Worker) => One(w.workFor == Some(f) && w.pc != Parking)
  }

  /** Whether the instance a worker deals with is one it has yet to release. */
  predicate Live(w: Worker) {
    w.dealWith.Some? && (w.directRun || w.pc in {Begin, Completing, Releasing, Running})
  }

  function Keeps(i: nat): Worker -> int {
    (w: Worker) => One(i in w.local) + One(Live(w) && w.dealWith == Some(i) && w.pc != Releasing)
  }

  function Releases(i: nat): Worker -> int {
    (w: Worker) => One(w.pc == Releasing && w.dealWith == Some(i))
  }

  // -------------------------------------------------------------- invariants

  /** The queue of a function holds instances of that function, and it is concurrent. */
  ghost predicate QueuesOk(s: Pool) {
    forall f: Func, j: nat :: j < |Queue(s, f)| ==> OwnInstance(s.reqs, f, Queue(s, f)[j])
  }

  predicate OwnInstance(reqs: seq<Req>, f: Func, i: nat) {
    i < |reqs| && reqs[i].f == f && Concurrent(f)
  }

  /** What a worker carries is of the function it works for; its local map holds at most twice half the limit. */
  predicate Loaded(reqs: seq<Req>, w: Worker) {
    && (Live(w) ==> w.dealWith.value < |reqs| && w.workFor == Some(reqs[w.dealWith.value].f))
    && (w.directRun ==>
          && w.dealWith.Some? && w.workFor.Some? && !Concurrent(w.workFor.value)
          && (w.pc == Begin || w.pc == Finding || w.pc == Sleeping))
    && (w.pc == Completing || w.pc == Releasing || w.pc == Running ==> w.dealWith.Some? && !w.directRun)
    && (w.pc == Leaving ==> w.workFor.Some? && Concurrent(w.workFor.value))
    && (w.local != {} ==>
          && (w.pc == Begin || w.pc == Completing || w.pc == Releasing || w.pc == Finding || w.pc == Running)
          && w.workFor.Some? && |w.local| <= 2 * Half(w.workFor.value)
          && forall i :: i in w.local ==> OwnInstance(reqs, w.workFor.value, i))
  }

  /** A worker against how often it is in the idle queue, how many requesters hold it or are about to post it, and
      whether it is busy. */
  predicate ListedAs(w: Worker, idle: nat, holders: int, posters: int, busy: bool) {
    && (w.workFor.Some? <==> busy)
    && w.status == (if busy then Busy else if idle > 0 then Idle else Neither)
    && idle + holders + posters + w.sem == One(w.pc == Sleeping)
    && (busy <==> if w.pc == Sleeping then posters + w.sem == 1 else w.pc != Idling)
    && w.parks == w.resumes + One(w.pc == Sleeping)
    && w.posts == w.resumes + w.sem
  }

  ghost predicate Listed(s: Pool, k: nat)
    requires k < |s.workers|
  {
    ListedAs(s.workers[k], multiset(s.idle)[k], Sum(s.reqs, Holds(k)), Sum(s.reqs, Posts(k)), k in s.busy)
  }

  /** Lists and requests name workers that exist. */
  predicate Bounded(s: Pool) {
    && (forall j :: 0 <= j < |s.idle| ==> s.idle[j] < |s.workers|)
    && (forall k :: k in s.busy ==> k < |s.workers|)
    && (forall i :: 0 <= i < |s.reqs| ==> ReqBounded(s.reqs[i], |s.workers|))
  }

  /** Only concurrent functions admit by capacity. */
  predicate ReqBounded(r: Req, n: nat) {
    && (r.stage.Holding? || r.stage.Posting? ==> r.stage.w < n)
    && (r.stage == Admitting || r.stage == Scaling ==> Concurrent(r.f))
  }

  ghost predicate WorkersOk(s: Pool) {
    forall k: nat :: k < |s.workers| ==> Loaded(s.reqs, s.workers[k]) && Listed(s, k)
  }

  ghost predicate Sound(s: Pool) {
    Bounded(s) && QueuesOk(s) && WorkersOk(s)
  }

  function Hand(r: Req): nat {
    One(!Concurrent(r.f) && (r.stage == Needing || r.stage == Creating || r.stage.Holding?))
  }

  function Queued(s: Pool, f: Func, i: nat): nat {
    multiset(Queue(s, f))[i]
  }

  /** An instance is in exactly one place until it is completed, and being released or released after that. */
  ghost predicate ConservedAt(s: Pool, i: nat)
    requires i < |s.reqs|
  {
    var r := s.reqs[i];
    && Hand(r) + Queued(s, r.f, i) + Sum(s.workers, Keeps(i)) + r.completed == 1
    && Sum(s.workers, Releases(i)) + r.released == r.completed
  }

  ghost predicate Conserved(s: Pool) {
    forall i: nat :: i < |s.reqs| ==> ConservedAt(s, i)
  }

  /** Workers granted or attached to a function. */
  ghost function Workforce(s: Pool, f: Func): int {
    Sum(s.reqs, Granted(f)) + Sum(s.workers, Attached(f))
  }

  /** Its requests that were admitted less those completed. */
  ghost function Outstanding(s: Pool, f: Func): int {
    Sum(s.reqs, Admitted(f)) - Sum(s.reqs, Completions(f))
  }

  /** The capacity left is the limit for each worker granted or attached, less the requests admitted and not yet
      completed. */
  ghost predicate LedgerFor(s: Pool, f: Func) {
    Cap(s, f) == f.limit * Workforce(s, f) - Outstanding(s, f)
  }

  ghost predicate Ledger(s: Pool) {
    forall f: Func :: Concurrent(f) ==> LedgerFor(s, f)
  }

  // ------------------------------------------------------ wakers and the woken

  lemma WakersCount(k: nat)
    ensures NonNegative(Holds(k)) && NonNegative(Posts(k))
  {
  }

  /** A worker taken from the idle queue is asleep, listed nowhere, and in one requester's hands. */
  lemma HeldAsleep(s: Pool, i: nat)
    requires Sound(s) && Enabled(s, Equip(i))
    ensures var k := s.reqs[i].stage.w;
      && s.workers[k].pc == Sleeping && s.workers[k].workFor == None && s.workers[k].status == Neither
      && k !in s.busy && multiset(s.idle)[k] == 0 && s.workers[k].sem == 0
      && Sum(s.reqs, Holds(k)) == 1 && Sum(s.reqs, Posts(k)) == 0
  {
    var k := s.reqs[i].stage.w;
    assert Listed(s, k);
    WakersCount(k);
    SumMember(s.reqs, i, Holds(k));
    SumNonNegative(s.reqs, Posts(k));
  }

  /** A worker about to be posted is asleep and busy, and its semaphore is empty. */
  lemma PostedAsleep(s: Pool, i: nat)
    requires Sound(s) && Enabled(s, Post(i))
    ensures var k := s.reqs[i].stage.w;
      && s.workers[k].pc == Sleeping && k in s.busy && multiset(s.idle)[k] == 0 && s.workers[k].sem == 0
      && Sum(s.reqs, Holds(k)) == 0 && Sum(s.reqs, Posts(k)) == 1
  {
    var k := s.reqs[i].stage.w;
    assert Listed(s, k);
    WakersCount(k);
    SumMember(s.reqs, i, Posts(k));
    SumNonNegative(s.reqs, Holds(k));
  }

  /** The instance a worker takes is one of the function it works for. */
  lemma TakenOwn(s: Pool, k: nat, pick: nat)
    requires Sound(s) && Enabled(s, Find(k, pick)) && Concurrent(s.workers[k].workFor.value)
    ensures var f := s.workers[k].workFor.value;
      var got := Fetch(s.workers[k].local, Queue(s, f), Half(f), pick);
      && got.pulled <= |Queue(s, f)|
      && (got.taken != None ==> got.taken == Some(pick) && OwnInstance(s.reqs, f, pick))
      && (got.taken == None ==> got.local == {})
  {
    var w := s.workers[k];
    var f := w.workFor.value;
    assert Loaded(s.reqs, w);
    if w.local == {} {
      var got := Pulled(Queue(s, f), Half(f));
      if got != [] {
        var j :| 0 <= j < |got| && got[j] == pick;
        assert Queue(s, f)[j] == pick;
      }
    }
  }

  // ----------------------------------------------------------- capacity ledger

  /** How a step changes the workforce of a function. */
  function Hired(s: Pool, step: Step, f: Func): int
    requires Enabled(s, step)
  {
    match step
    case Scale(i) => if s.reqs[i].f == f then 1 else 0
    case Leave(k) => if s.workers[k].workFor == Some(f) then -1 else 0
    case _ => 0
  }

  /** A step in which the capacity follows the workforce and the requests. */
  ghost predicate Balanced(s: Pool, t: Pool, f: Func, hired: int) {
    && Workforce(t, f) == Workforce(s, f) + hired && -1 <= hired <= 1
    && Cap(t, f) - Cap(s, f) == (if hired == 1 then f.limit else if hired == 0 then 0 else 0 - f.limit)
                                - (Outstanding(t, f) - Outstanding(s, f))
  }

  lemma OneMore(limit: int, n: int)
    ensures limit * (n + 1) == limit * n + limit && limit * (n - 1) == limit * n - limit
  {
  }

  lemma BalancedLedger(s: Pool, t: Pool, f: Func)
    requires LedgerFor(s, f) && exists hired :: Balanced(s, t, f, hired)
    ensures LedgerFor(t, f)
  {
    hide Workforce, Outstanding, Cap;
    OneMore(f.limit, Workforce(s, f));
  }

  /** A change to one request and one worker. */
  lemma ChangeOne(s: Pool, t: Pool, f: Func, i: nat, r: Req, k: nat, w: Worker)
    requires i < |s.reqs| && t.reqs == s.reqs[i := r] && k < |s.workers| && t.workers == s.workers[k := w]
    ensures Workforce(t, f) == Workforce(s, f) + Granted(f)(r) - Granted(f)(s.reqs[i])
      + Attached(f)(w) - Attached(f)(s.workers[k])
    ensures Outstanding(t, f) == Outstanding(s, f) + Admitted(f)(r) - Admitted(f)(s.reqs[i])
      - Completions(f)(r) + Completions(f)(s.reqs[i])
  {
    SumUpdate(s.reqs, i, r, Granted(f));
    SumUpdate(s.reqs, i, r, Admitted(f));
    SumUpdate(s.reqs, i, r, Completions(f));
    SumUpdate(s.workers, k, w, Attached(f));
  }

  lemma ChangeReq(s: Pool, t: Pool, f: Func, i: nat, r: Req)
    requires i < |s.reqs| && t.reqs == s.reqs[i := r] && t.workers == s.workers
    ensures Workforce(t, f) == Workforce(s, f) + Granted(f)(r) - Granted(f)(s.reqs[i])
    ensures Outstanding(t, f) == Outstanding(s, f) + Admitted(f)(r) - Admitted(f)(s.reqs[i])
      - Completions(f)(r) + Completions(f)(s.reqs[i])
  {
    SumUpdate(s.reqs, i, r, Granted(f));
    SumUpdate(s.reqs, i, r, Admitted(f));
    SumUpdate(s.reqs, i, r, Completions(f));
  }

  lemma ChangeWorker(s: Pool, t: Pool, f: Func, k: nat, w: Worker)
    requires t.reqs == s.reqs && k < |s.workers| && t.workers == s.workers[k := w]
    ensures Workforce(t, f) == Workforce(s, f) + Attached(f)(w) - Attached(f)(s.workers[k])
    ensures Outstanding(t, f) == Outstanding(s, f)
  {
    SumUpdate(s.workers, k, w, Attached(f));
  }

  lemma AddReq(s: Pool, t: Pool, f: Func, r: Req)
    requires t.reqs == s.reqs + [r] && t.workers == s.workers
    ensures Workforce(t, f) == Workforce(s, f) + Granted(f)(r)
    ensures Outstanding(t, f) == Outstanding(s, f) + Admitted(f)(r) - Completions(f)(r)
  {
    SumAppend(s.reqs, r, Granted(f));
    SumAppend(s.reqs, r, Admitted(f));
    SumAppend(s.reqs, r, Completions(f));
  }

  lemma ArriveBalanced(s: Pool, g: Func, f: Func)
    requires Concurrent(f)
    ensures Balanced(s, Arrived(s, g), f, 0)
  {
    hide Workforce, Outstanding;
    AddReq(s, Arrived(s, g), f, Req(g, if Concurrent(g) then Admitting else Needing, 0, 0));
  }

  lemma AdmitBalanced(s: Pool, step: Step, f: Func)
    requires Concurrent(f) && Enabled(s, step) && (step.Reserve? || step.Scale?)
    ensures Balanced(s, Effect(s, step), f, Hired(s, step, f))
  {
    var t := Effect(s, step);
    ChangeReq(s, t, f, step.i, t.reqs[step.i]);
    hide Workforce, Outstanding;
  }

  lemma TakeIdleBalanced(s: Pool, i: nat, f: Func)
    requires Concurrent(f) && Enabled(s, TakeIdle(i))
    ensures Balanced(s, IdleTaken(s, i), f, 0)
  {
    var t := IdleTaken(s, i);
    if s.idle == [] || s.idle[0] >= |s.workers| {
      ChangeReq(s, t, f, i, t.reqs[i]);
    } else {
      ChangeOne(s, t, f, i, t.reqs[i], s.idle[0], t.workers[s.idle[0]]);
    }
    hide Workforce, Outstanding;
  }

  lemma EquipBalanced(s: Pool, i: nat, f: Func)
    requires Sound(s) && Concurrent(f) && Enabled(s, Equip(i))
    ensures Balanced(s, Equipped(s, i), f, 0)
  {
    hide Workforce, Outstanding, Sound;
    var t, k := Equipped(s, i), s.reqs[i].stage.w;
    HeldAsleep(s, i);
    ChangeOne(s, t, f, i, t.reqs[i], k, t.workers[k]);
  }

  lemma PostBalanced(s: Pool, i: nat, f: Func)
    requires Concurrent(f) && Enabled(s, Post(i))
    ensures Balanced(s, Posted(s, i), f, 0)
  {
    hide Workforce, Outstanding;
    var t, k := Posted(s, i), s.reqs[i].stage.w;
    ChangeOne(s, t, f, i, t.reqs[i], k, t.workers[k]);
  }

  lemma CreateBalanced(s: Pool, i: nat, f: Func)
    requires Concurrent(f) && Enabled(s, Create(i))
    ensures Balanced(s, Created(s, i), f, 0)
  {
    var served := WithStage(s, i, Served);
    ChangeReq(s, served, f, i, served.reqs[i]);
    SumAppend(s.workers, NewWorker(s.reqs[i].f, i), Attached(f));
  }

  lemma CompleteBalanced(s: Pool, k: nat, f: Func)
    requires Sound(s) && Concurrent(f) && Enabled(s, Complete(k))
    ensures Balanced(s, Completed(s, k), f, 0)
  {
    var t, i := Completed(s, k), s.workers[k].dealWith.value;
    assert Loaded(s.reqs, s.workers[k]);
    hide Workforce, Outstanding, Sound;
    ChangeOne(s, t, f, i, t.reqs[i], k, t.workers[k]);
  }

  lemma ReleaseBalanced(s: Pool, k: nat, f: Func)
    requires Concurrent(f) && Enabled(s, Release(k))
    ensures Balanced(s, Released(s, k), f, 0)
  {
    var t, i := Released(s, k), s.workers[k].dealWith.value;
    hide Workforce, Outstanding;
    ChangeOne(s, t, f, i, t.reqs[i], k, t.workers[k]);
  }

  lemma ParkBalanced(s: Pool, k: nat, f: Func)
    requires Concurrent(f) && Enabled(s, Park(k))
    ensures Balanced(s, Parked(s, k), f, 0)
  {
    var t := Parked(s, k);
    hide Workforce, Outstanding;
    ChangeWorker(s, t, f, k, t.workers[k]);
  }

  lemma FindBalanced(s: Pool, k: nat, pick: nat, f: Func)
    requires Sound(s) && Concurrent(f) && Enabled(s, Find(k, pick))
    ensures Balanced(s, Found(s, k, pick), f, 0)
  {
    hide Workforce, Outstanding, Sound, Fetch;
    var t := Found(s, k, pick);
    if Concurrent(s.workers[k].workFor.value) {
      TakenOwn(s, k, pick);
    }
    ChangeWorker(s, t, f, k, t.workers[k]);
  }

  lemma LeaveBalanced(s: Pool, k: nat, f: Func)
    requires Concurrent(f) && Enabled(s, Leave(k))
    ensures Balanced(s, Left(s, k), f, Hired(s, Leave(k), f))
  {
    hide Workforce, Outstanding;
    var t := Left(s, k);
    ChangeWorker(s, t, f, k, t.workers[k]);
  }

  lemma OwnBalanced(s: Pool, step: Step, f: Func)
    requires Concurrent(f) && Enabled(s, step) && (step.Top? || step.Return? || step.Enlist? || step.Resume?)
    ensures Balanced(s, Effect(s, step), f, Hired(s, step, f))
  {
    hide Workforce, Outstanding;
    var t := Effect(s, step);
    ChangeWorker(s, t, f, step.k, t.workers[step.k]);
  }

  lemma StepBalanced(s: Pool, step: Step, f: Func)
    requires Sound(s) && Concurrent(f) && Enabled(s, step)
    ensures Balanced(s, Effect(s, step), f, Hired(s, step, f))
  {
    hide Sound, Enabled, Balanced;
    hide Arrived, Reserved, Scaled, IdleTaken, Created, Equipped, Posted, Completed, Released, Found, Left, Parked;
    hide Enlisted, Resumed;
    match step
    case Arrive(g) => ArriveBalanced(s, g, f);
    case Reserve(_) => AdmitBalanced(s, step, f);
    case Scale(_) => AdmitBalanced(s, step, f);
    case TakeIdle(i) => TakeIdleBalanced(s, i, f);
    case Create(i) => CreateBalanced(s, i, f);
    case Equip(i) => EquipBalanced(s, i, f);
    case Post(i) => PostBalanced(s, i, f);
    case Complete(k) => CompleteBalanced(s, k, f);
    case Release(k) => ReleaseBalanced(s, k, f);
    case Find(k, pick) => FindBalanced(s, k, pick, f);
    case Leave(k) => LeaveBalanced(s, k, f);
    case Park(k) => ParkBalanced(s, k, f);
    case _ => OwnBalanced(s, step, f);
  }

  lemma StepLedger(s: Pool, step: Step)
    requires Sound(s) && Ledger(s) && Enabled(s, step)
    ensures Ledger(Effect(s, step))
  {
    hide Sound, Enabled, Effect, Balanced, LedgerFor;
    forall f: Func | Concurrent(f) ensures LedgerFor(Effect(s, step), f) {
      StepBalanced(s, step, f);
      assert Balanced(s, Effect(s, step), f, Hired(s, step, f));
      BalancedLedger(s, Effect(s, step), f);
    }
  }
}
