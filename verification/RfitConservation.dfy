/** Every instance is in exactly one place, in every interleaving. */
module RfitConservation {
  import opened Wrappers
  import opened Sums
  import opened RfitPool
  import opened RfitInvariants

  /** A change to one worker, as far as one instance is concerned. */
  lemma WorkerChange(s: Pool, t: Pool, k: nat, w: Worker, i: nat)
    requires k < |s.workers| && t.workers == s.workers[k := w]
    ensures Sum(t.workers, Keeps(i)) == Sum(s.workers, Keeps(i)) - Keeps(i)(s.workers[k]) + Keeps(i)(w)
    ensures Sum(t.workers, Releases(i)) == Sum(s.workers, Releases(i)) - Releases(i)(s.workers[k]) + Releases(i)(w)
  {
    SumUpdate(s.workers, k, w, Keeps(i));
    SumUpdate(s.workers, k, w, Releases(i));
  }

  lemma QueuedOwn(s: Pool, f: Func, i: nat)
    requires QueuesOk(s)
    ensures multiset(Queue(s, f))[i] > 0 ==> OwnInstance(s.reqs, f, i)
  {
    if i in multiset(Queue(s, f)) {
      var x :| 0 <= x < |Queue(s, f)| && Queue(s, f)[x] == i;
    }
  }

  lemma NewInstance(s: Pool)
    requires Sound(s)
    ensures Sum(s.workers, Keeps(|s.reqs|)) == 0 && Sum(s.workers, Releases(|s.reqs|)) == 0
    ensures forall f :: Queued(s, f, |s.reqs|) == 0
    ensures forall f :: !Concurrent(f) ==> Queue(s, f) == []
  {
    var n := |s.reqs|;
    forall k | 0 <= k < |s.workers| ensures Keeps(n)(s.workers[k]) == 0 && Releases(n)(s.workers[k]) == 0 {
      assert Loaded(s.reqs, s.workers[k]);
      assert n in s.workers[k].local ==> OwnInstance(s.reqs, s.workers[k].workFor.value, n);
    }
    SumZero(s.workers, Keeps(n));
    SumZero(s.workers, Releases(n));
    forall f ensures Queued(s, f, n) == 0 {
      QueuedOwn(s, f, n);
    }
    forall f | !Concurrent(f) ensures Queue(s, f) == [] {
      if Queue(s, f) != [] {
        QueuedOwn(s, f, Queue(s, f)[0]);
      }
    }
  }

  lemma ArrivedQueued(s: Pool, f: Func, g: Func, i: nat)
    ensures Queued(Arrived(s, f), g, i) == Queued(s, g, i) + One(Concurrent(f) && g == f && i == |s.reqs|)
  {
    var t := Arrived(s, f);
    if Concurrent(f) && g == f {
      assert Queue(t, g) == Queue(s, g) + [|s.reqs|];
    } else {
      assert Queue(t, g) == Queue(s, g);
    }
  }

  lemma ArriveConserves(s: Pool, f: Func, i: nat)
    requires Sound(s) && i <= |s.reqs| && (i < |s.reqs| ==> ConservedAt(s, i))
    ensures ConservedAt(Arrived(s, f), i)
  {
    NewInstance(s);
    ArrivedQueued(s, f, if i < |s.reqs| then s.reqs[i].f else f, i);
    hide Sound, Queued, Sum, Keeps, Releases;
    assert i == |s.reqs| ==> Queued(s, f, i) == 0;
  }

  lemma AdmitShape(s: Pool, step: Step, j: nat)
    requires Sound(s) && j < |s.reqs| && Enabled(s, step) && (step.Reserve? || step.Scale?)
    ensures var t := Effect(s, step);
      && t.queues == s.queues && t.workers == s.workers && |t.reqs| == |s.reqs|
      && t.reqs[j] == s.reqs[j].(stage := t.reqs[j].stage) && Hand(t.reqs[j]) == Hand(s.reqs[j])
  {
    assert ReqBounded(s.reqs[step.i], |s.workers|);
    hide Sound;
  }

  lemma AdmitConserves(s: Pool, step: Step, j: nat)
    requires Sound(s) && j < |s.reqs| && ConservedAt(s, j) && Enabled(s, step) && (step.Reserve? || step.Scale?)
    ensures ConservedAt(Effect(s, step), j)
  {
    AdmitShape(s, step, j);
    hide Sound, Enabled, Effect, Keeps, Releases, Hand;
    assert Queued(Effect(s, step), s.reqs[j].f, j) == Queued(s, s.reqs[j].f, j);
    hide Queued, Queue;
  }

  lemma NewKeeps(f: Func, i: nat, j: nat)
    ensures Keeps(j)(NewWorker(f, i)) == One(!Concurrent(f) && i == j) && Releases(j)(NewWorker(f, i)) == 0
  {
  }

  lemma CreateShape(s: Pool, i: nat, j: nat)
    requires j < |s.reqs| && Enabled(s, Create(i))
    ensures var t := Created(s, i);
      && t.queues == s.queues && t.workers == s.workers + [NewWorker(s.reqs[i].f, i)] && |t.reqs| == |s.reqs|
      && t.reqs[j] == s.reqs[j].(stage := t.reqs[j].stage)
      && Hand(t.reqs[j]) == Hand(s.reqs[j]) - One(!Concurrent(s.reqs[i].f) && i == j)
  {
    hide NewWorker;
  }

  lemma JoinedConserved(s: Pool, t: Pool, w: Worker, j: nat)
    requires j < |s.reqs| == |t.reqs| && ConservedAt(s, j) && t.workers == s.workers + [w] && t.queues == s.queues
    requires t.reqs[j] == s.reqs[j].(stage := t.reqs[j].stage)
    requires Hand(t.reqs[j]) + Keeps(j)(w) == Hand(s.reqs[j]) && Releases(j)(w) == 0
    ensures ConservedAt(t, j)
  {
    SumAppend(s.workers, w, Keeps(j));
    SumAppend(s.workers, w, Releases(j));
    assert Queued(t, s.reqs[j].f, j) == Queued(s, s.reqs[j].f, j);
    hide Keeps, Releases, Hand, Queued, Sum;
  }

  lemma CreateConserves(s: Pool, i: nat, j: nat)
    requires j < |s.reqs| && ConservedAt(s, j) && Enabled(s, Create(i))
    ensures ConservedAt(Created(s, i), j)
  {
    CreateShape(s, i, j);
    NewKeeps(s.reqs[i].f, i, j);
    var w := NewWorker(s.reqs[i].f, i);
    hide *;
    JoinedConserved(s, Created(s, i), w, j);
  }

  /** A change that leaves an instance where it is. */
  predicate StaysPut(s: Pool, t: Pool, k: nat, j: nat) {
    && j < |s.reqs| == |t.reqs| && k < |s.workers| == |t.workers|
    && t.queues == s.queues && t.workers == s.workers[k := t.workers[k]]
    && t.reqs[j] == s.reqs[j].(stage := t.reqs[j].stage) && Hand(t.reqs[j]) == Hand(s.reqs[j])
    && Keeps(j)(t.workers[k]) == Keeps(j)(s.workers[k]) && Releases(j)(t.workers[k]) == Releases(j)(s.workers[k])
  }

  /** A step that moves an instance between the counted places, with one worker changed. */
  predicate Balances(s: Pool, t: Pool, k: nat, j: nat) {
    && j < |s.reqs| && j < |t.reqs| && k < |s.workers| == |t.workers|
    && t.reqs[j].f == s.reqs[j].f && t.workers == s.workers[k := t.workers[k]]
    && var r, r', f := s.reqs[j], t.reqs[j], s.reqs[j].f;
       var w, w' := s.workers[k], t.workers[k];
       && Hand(r') + Queued(t, f, j) + Keeps(j)(w') + r'.completed
          == Hand(r) + Queued(s, f, j) + Keeps(j)(w) + r.completed
       && Releases(j)(w') + r'.released - r'.completed == Releases(j)(w) + r.released - r.completed
  }

  lemma Rebalanced(s: Pool, t: Pool, k: nat, j: nat)
    requires Balances(s, t, k, j) && ConservedAt(s, j)
    ensures ConservedAt(t, j)
  {
    WorkerChange(s, t, k, t.workers[k], j);
    hide Keeps, Releases, Hand, Queued, Sum;
  }

  lemma StaysConserved(s: Pool, t: Pool, k: nat, j: nat)
    requires StaysPut(s, t, k, j) && ConservedAt(s, j)
    ensures ConservedAt(t, j)
  {
    assert Queued(t, s.reqs[j].f, j) == Queued(s, s.reqs[j].f, j);
    assert Balances(s, t, k, j) by {
      hide Keeps, Releases, Hand, Queued;
    }
    hide *;
    Rebalanced(s, t, k, j);
  }

  lemma TakeIdleStays(s: Pool, i: nat, j: nat)
    requires j < |s.reqs| && Enabled(s, TakeIdle(i)) && s.idle != [] && s.idle[0] < |s.workers|
    ensures StaysPut(s, IdleTaken(s, i), s.idle[0], j)
  {
  }

  lemma TakeIdleConserves(s: Pool, i: nat, j: nat)
    requires j < |s.reqs| && ConservedAt(s, j) && Enabled(s, TakeIdle(i))
    ensures ConservedAt(IdleTaken(s, i), j)
  {
    hide Keeps, Releases;
    if s.idle != [] && s.idle[0] < |s.workers| {
      TakeIdleStays(s, i, j);
      StaysConserved(s, IdleTaken(s, i), s.idle[0], j);
    }
  }

  lemma PostStays(s: Pool, i: nat, j: nat)
    requires j < |s.reqs| && Enabled(s, Post(i))
    ensures StaysPut(s, Posted(s, i), s.reqs[i].stage.w, j)
  {
  }

  lemma PostConserves(s: Pool, i: nat, j: nat)
    requires j < |s.reqs| && ConservedAt(s, j) && Enabled(s, Post(i))
    ensures ConservedAt(Posted(s, i), j)
  {
    PostStays(s, i, j);
    var k := s.reqs[i].stage.w;
    hide *;
    StaysConserved(s, Posted(s, i), k, j);
  }

  lemma EquipKeeps(s: Pool, i: nat, j: nat)
    requires Sound(s) && Enabled(s, Equip(i))
    ensures var k := s.reqs[i].stage.w;
      var w, w' := s.workers[k], Equipped(s, i).workers[k];
      && Keeps(j)(w') == Keeps(j)(w) + One(!Concurrent(s.reqs[i].f) && i == j) && Releases(j)(w') == Releases(j)(w)
  {
    HeldAsleep(s, i);
    assert Loaded(s.reqs, s.workers[s.reqs[i].stage.w]);
    hide Sound;
  }

  lemma EquipConserves(s: Pool, i: nat, j: nat)
    requires Sound(s) && j < |s.reqs| && ConservedAt(s, j) && Enabled(s, Equip(i))
    ensures ConservedAt(Equipped(s, i), j)
  {
    var t, k := Equipped(s, i), s.reqs[i].stage.w;
    EquipKeeps(s, i, j);
    assert Balances(s, t, k, j) by {
      hide Sound, Keeps, Releases, Sum;
      assert Queued(t, s.reqs[j].f, j) == Queued(s, s.reqs[j].f, j);
      hide Queued, Queue;
    }
    hide *;
    Rebalanced(s, t, k, j);
  }

  lemma CompleteMoves(s: Pool, k: nat, j: nat)
    requires Sound(s) && j < |s.reqs| && Enabled(s, Complete(k))
    ensures var t, d := Completed(s, k), One(s.workers[k].dealWith == Some(j));
      && |t.reqs| == |s.reqs| && t.workers == s.workers[k := t.workers[k]] && t.queues == s.queues
      && t.reqs[j] == s.reqs[j].(completed := s.reqs[j].completed + d)
      && Keeps(j)(t.workers[k]) == Keeps(j)(s.workers[k]) - d
      && Releases(j)(t.workers[k]) == Releases(j)(s.workers[k]) + d
  {
    assert Loaded(s.reqs, s.workers[k]);
    hide Sound;
  }

  lemma CompleteConserves(s: Pool, k: nat, j: nat)
    requires Sound(s) && j < |s.reqs| && ConservedAt(s, j) && Enabled(s, Complete(k))
    ensures ConservedAt(Completed(s, k), j)
  {
    CompleteMoves(s, k, j);
    var t := Completed(s, k);
    assert Balances(s, t, k, j) by {
      hide Sound, Keeps, Releases, Completed, Sum;
      assert Queued(t, s.reqs[j].f, j) == Queued(s, s.reqs[j].f, j);
      hide Queued, Queue;
    }
    hide *;
    Rebalanced(s, t, k, j);
  }

  lemma ReleaseMoves(s: Pool, k: nat, j: nat)
    requires Sound(s) && j < |s.reqs| && Enabled(s, Release(k))
    ensures var t, d := Released(s, k), One(s.workers[k].dealWith == Some(j));
      && |t.reqs| == |s.reqs| && t.workers == s.workers[k := t.workers[k]] && t.queues == s.queues
      && t.reqs[j] == s.reqs[j].(released := s.reqs[j].released + d)
      && Keeps(j)(t.workers[k]) == Keeps(j)(s.workers[k])
      && Releases(j)(t.workers[k]) == Releases(j)(s.workers[k]) - d
  {
    assert Loaded(s.reqs, s.workers[k]);
    hide Sound;
  }

  lemma ReleaseConserves(s: Pool, k: nat, j: nat)
    requires Sound(s) && j < |s.reqs| && ConservedAt(s, j) && Enabled(s, Release(k))
    ensures ConservedAt(Released(s, k), j)
  {
    ReleaseMoves(s, k, j);
    var t := Released(s, k);
    assert Balances(s, t, k, j) by {
      hide Sound, Keeps, Releases, Released, Sum;
      assert Queued(t, s.reqs[j].f, j) == Queued(s, s.reqs[j].f, j);
      hide Queued, Queue;
    }
    hide *;
    Rebalanced(s, t, k, j);
  }

  lemma ParkStays(s: Pool, k: nat, j: nat)
    requires Sound(s) && j < |s.reqs| && Enabled(s, Park(k))
    ensures StaysPut(s, Parked(s, k), k, j)
  {
    assert Loaded(s.reqs, s.workers[k]);
    hide Sound;
  }

  lemma EnlistStays(s: Pool, k: nat, j: nat)
    requires Sound(s) && j < |s.reqs| && Enabled(s, Enlist(k))
    ensures StaysPut(s, Enlisted(s, k), k, j)
  {
    assert Loaded(s.reqs, s.workers[k]);
    hide Sound;
  }

  lemma LeaveStays(s: Pool, k: nat, j: nat)
    requires Sound(s) && j < |s.reqs| && Enabled(s, Leave(k))
    ensures StaysPut(s, Left(s, k), k, j)
  {
    assert Loaded(s.reqs, s.workers[k]);
    hide Sound;
  }

  lemma OwnStays(s: Pool, k: nat, w: Worker, j: nat)
    requires j < |s.reqs| && k < |s.workers|
    requires Keeps(j)(w) == Keeps(j)(s.workers[k]) && Releases(j)(w) == Releases(j)(s.workers[k])
    ensures StaysPut(s, WithWorker(s, k, w), k, j)
  {
    hide Keeps, Releases;
  }

  lemma TopStays(s: Pool, k: nat, j: nat)
    requires Sound(s) && Enabled(s, Top(k))
    ensures var w := Topped(s.workers[k]);
      Keeps(j)(w) == Keeps(j)(s.workers[k]) && Releases(j)(w) == Releases(j)(s.workers[k])
  {
    assert Loaded(s.reqs, s.workers[k]);
    hide Sound;
  }

  lemma ReturnStays(s: Pool, k: nat, j: nat)
    requires Sound(s) && Enabled(s, Return(k))
    ensures var w := s.workers[k].(pc := Begin);
      Keeps(j)(w) == Keeps(j)(s.workers[k]) && Releases(j)(w) == Releases(j)(s.workers[k])
  {
    assert Loaded(s.reqs, s.workers[k]);
    hide Sound;
  }

  lemma ResumeStays(s: Pool, k: nat, j: nat)
    requires Sound(s) && Enabled(s, Resume(k))
    ensures var w := Resumed(s.workers[k]);
      Keeps(j)(w) == Keeps(j)(s.workers[k]) && Releases(j)(w) == Releases(j)(s.workers[k])
  {
    assert Loaded(s.reqs, s.workers[k]);
    hide Sound;
  }

  // ------------------------------------------------------------------ fetching

  function InSet(i: nat, a: set<nat>): nat {
    One(i in a)
  }

  /** When a fetch finds nothing, how much it pulls, and what it leaves. It finds nothing exactly if map and queue are
      empty; it pulls from the front of the queue, as many as half the limit or as there are, exactly if at most half
      the limit is left in the map; and what was in the map or pulled is in the map, but for the one taken. */
  lemma FetchExact(local: set<nat>, queue: seq<nat>, half: nat, pick: nat)
    requires Choice(local, queue, half, pick) && half > 0
    ensures var got := Fetch(local, queue, half, pick);
      var left := if local == {} then 0 else |local| - 1;
      && (got.taken == None <==> local == {} && queue == [])
      && got.pulled == (if left > half then 0 else if half < |queue| then half else |queue|)
      && (got.taken.Some? ==>
            got.taken.value == pick && if local == {} then pick in queue[..got.pulled] else pick in local)
      && got.local == (if local == {} then Elements(queue[..got.pulled]) - {pick}
                       else local - {pick} + Elements(queue[..got.pulled]))
  {
    var n := if half < |queue| then half else |queue|;
    FetchForms(local, queue, half, pick);
    NothingPulled(queue);
    hide Fetch, Pulled, Elements;
    assert n > 0 <==> queue != [];
  }

  lemma FetchForms(local: set<nat>, queue: seq<nat>, half: nat, pick: nat)
    requires Choice(local, queue, half, pick) && half > 0
    ensures var n := if half < |queue| then half else |queue|;
      && (local != {} ==> |local - {pick}| == |local| - 1)
      && Pulled(queue, half) == queue[..n]
      && Fetch(local, queue, half, pick)
         == if local == {} then Fetched(if n == 0 then None else Some(pick), Elements(queue[..n]) - {pick}, n)
            else if |local - {pick}| > half then Fetched(Some(pick), local - {pick}, 0)
            else Fetched(Some(pick), local - {pick} + Elements(queue[..n]), n)
  {
    var n := if half < |queue| then half else |queue|;
    assert Pulled(queue, half) == queue[..n];
    hide Pulled, Elements;
    NothingPulled(queue);
  }

  lemma NothingPulled(queue: seq<nat>)
    ensures queue[..0] == [] && Elements([]) == {}
  {
  }

  /** An instance that is in the map or the queue once is afterwards in the map, in the queue or the one taken, once. */
  lemma FetchConserves(local: set<nat>, queue: seq<nat>, half: nat, pick: nat, i: nat)
    requires Choice(local, queue, half, pick) && InSet(i, local) + multiset(queue)[i] <= 1
    ensures var got := Fetch(local, queue, half, pick);
      && got.pulled <= |queue|
      && InSet(i, got.local) + One(got.taken == Some(i)) + multiset(queue[got.pulled..])[i]
         == InSet(i, local) + multiset(queue)[i]
  {
    var pulled: seq<nat> := Pulled(queue, half);
    assert queue == pulled + queue[|pulled|..];
    assert multiset(pulled)[i] + multiset(queue[|pulled|..])[i] == multiset(queue)[i];
    assert i in Elements(pulled) <==> multiset(pulled)[i] >= 1 by {
      assert i in pulled <==> i in multiset(pulled);
    }
    assert queue[0..] == queue;
  }

  lemma Fetchable(s: Pool, k: nat, j: nat)
    requires Sound(s) && j < |s.reqs| && ConservedAt(s, j) && At(s, k, Finding) && s.workers[k].workFor.Some?
    ensures var f := s.workers[k].workFor.value;
      && InSet(j, s.workers[k].local) + Queued(s, f, j) <= 1
      && (s.reqs[j].f != f ==> InSet(j, s.workers[k].local) + Queued(s, f, j) == 0)
  {
    var w := s.workers[k];
    var f := w.workFor.value;
    assert Loaded(s.reqs, w);
    assert NonNegative(Keeps(j));
    SumMember(s.workers, k, Keeps(j));
    QueuedOwn(s, f, j);
    assert j in w.local ==> OwnInstance(s.reqs, f, j);
  }

  lemma FetchingShape(s: Pool, k: nat, pick: nat, j: nat)
    requires Sound(s) && Enabled(s, Find(k, pick))
    requires !s.workers[k].directRun && Concurrent(s.workers[k].workFor.value)
    ensures k < |s.workers| && s.workers[k].workFor.Some?
    ensures var t, w := Found(s, k, pick), s.workers[k];
      var f := w.workFor.value;
      var got := Fetch(w.local, Queue(s, f), Half(f), pick);
      && w.pc == Finding && got.pulled <= |Queue(s, f)|
      && t.reqs == s.reqs && (forall g :: g != f ==> Queued(t, g, j) == Queued(s, g, j))
      && Queued(t, f, j) == multiset(Queue(s, f)[got.pulled..])[j]
      && |t.workers| == |s.workers| && t.workers == s.workers[k := t.workers[k]]
      && t.workers[k] == if got.taken == None then w.(local := got.local, pc := Leaving)
                         else w.(local := got.local, workFor := Some(f), dealWith := got.taken, pc := Running)
  {
    TakenOwn(s, k, pick);
    hide Sound, Fetch, Half, Choice;
  }

  lemma TakerKeeps(w: Worker, local: set<nat>, f: Func, taken: Option<nat>, j: nat)
    requires w.pc == Finding && !w.directRun
    ensures var w' := if taken == None then w.(local := local, pc := Leaving)
                      else w.(local := local, workFor := Some(f), dealWith := taken, pc := Running);
      && Keeps(j)(w) == InSet(j, w.local) && Releases(j)(w) == Releases(j)(w') == 0
      && Keeps(j)(w') == InSet(j, local) + One(taken == Some(j))
  {
  }

  lemma FetchingKeeps(s: Pool, k: nat, pick: nat, j: nat)
    requires Sound(s) && Enabled(s, Find(k, pick))
    requires !s.workers[k].directRun && Concurrent(s.workers[k].workFor.value)
    ensures k < |s.workers| && s.workers[k].workFor.Some?
    ensures var t, w := Found(s, k, pick), s.workers[k];
      var f := w.workFor.value;
      var got := Fetch(w.local, Queue(s, f), Half(f), pick);
      && got.pulled <= |Queue(s, f)|
      && t.reqs == s.reqs && (forall g :: g != f ==> Queued(t, g, j) == Queued(s, g, j))
      && Queued(t, f, j) == multiset(Queue(s, f)[got.pulled..])[j]
      && |t.workers| == |s.workers| && t.workers == s.workers[k := t.workers[k]]
      && Keeps(j)(w) == InSet(j, w.local) && Releases(j)(w) == Releases(j)(t.workers[k]) == 0
      && Keeps(j)(t.workers[k]) == InSet(j, got.local) + One(got.taken == Some(j))
  {
    hide *;
    FetchingShape(s, k, pick, j);
    var w := s.workers[k];
    var got := Fetch(w.local, Queue(s, w.workFor.value), Half(w.workFor.value), pick);
    TakerKeeps(w, got.local, w.workFor.value, got.taken, j);
  }

  /** What leaves the queue arrives at the worker. */
  lemma FetchingMoves(s: Pool, k: nat, pick: nat, j: nat)
    requires Sound(s) && j < |s.reqs| && ConservedAt(s, j) && Enabled(s, Find(k, pick))
    requires !s.workers[k].directRun && Concurrent(s.workers[k].workFor.value)
    ensures var t, f := Found(s, k, pick), s.reqs[j].f;
      && |t.workers| == |s.workers| && t.reqs == s.reqs
      && Keeps(j)(t.workers[k]) + Queued(t, f, j) == Keeps(j)(s.workers[k]) + Queued(s, f, j)
  {
    var w := s.workers[k];
    var f := w.workFor.value;
    Fetchable(s, k, j);
    FetchingKeeps(s, k, pick, j);
    hide Sound, Fetch, Found, Keeps, Half, ConservedAt, Sum, Pulled;
    FetchConserves(w.local, Queue(s, f), Half(f), pick, j);
  }

  lemma MovesBalance(s: Pool, t: Pool, k: nat, j: nat)
    requires j < |s.reqs| && k < |s.workers| == |t.workers|
    requires t.reqs == s.reqs && t.workers == s.workers[k := t.workers[k]]
    requires var f := s.reqs[j].f;
      Keeps(j)(t.workers[k]) + Queued(t, f, j) == Keeps(j)(s.workers[k]) + Queued(s, f, j)
    requires Releases(j)(t.workers[k]) == Releases(j)(s.workers[k])
    ensures Balances(s, t, k, j)
  {
    hide Keeps, Releases, Queued, Hand;
  }

  lemma FetchingConserves(s: Pool, k: nat, pick: nat, j: nat)
    requires Sound(s) && j < |s.reqs| && ConservedAt(s, j) && Enabled(s, Find(k, pick))
    requires !s.workers[k].directRun && Concurrent(s.workers[k].workFor.value)
    ensures ConservedAt(Found(s, k, pick), j)
  {
    hide *;
    FetchingKeeps(s, k, pick, j);
    FetchingMoves(s, k, pick, j);
    MovesBalance(s, Found(s, k, pick), k, j);
    Rebalanced(s, Found(s, k, pick), k, j);
  }

  lemma DirectKeeps(w: Worker, reqs: seq<Req>, j: nat)
    requires Loaded(reqs, w) && w.pc == Finding && w.workFor.Some?
    ensures Direct(w) ==>
      var w' := w.(directRun := false, pc := Running);
      Keeps(j)(w') == Keeps(j)(w) && Releases(j)(w') == Releases(j)(w)
    ensures !Direct(w) && !Concurrent(w.workFor.value) ==>
      var w' := w.(pc := Parking); Keeps(j)(w') == Keeps(j)(w) && Releases(j)(w') == Releases(j)(w)
  {
    hide OwnInstance, Half;
  }

  lemma DirectConserves(s: Pool, k: nat, pick: nat, j: nat)
    requires Sound(s) && j < |s.reqs| && ConservedAt(s, j) && Enabled(s, Find(k, pick))
    requires Direct(s.workers[k]) || !Concurrent(s.workers[k].workFor.value)
    ensures ConservedAt(Found(s, k, pick), j)
  {
    var w := s.workers[k];
    assert Loaded(s.reqs, w);
    DirectKeeps(w, s.reqs, j);
    var w' := if Direct(w) then w.(directRun := false, pc := Running) else w.(pc := Parking);
    OwnStays(s, k, w', j);
    assert Found(s, k, pick) == WithWorker(s, k, w');
    hide Sound, Found, Keeps, Releases, StaysPut, Loaded, Direct;
    StaysConserved(s, WithWorker(s, k, w'), k, j);
  }

  lemma FindConserves(s: Pool, k: nat, pick: nat, j: nat)
    requires Sound(s) && j < |s.reqs| && ConservedAt(s, j) && Enabled(s, Find(k, pick))
    ensures ConservedAt(Found(s, k, pick), j)
  {
    assert Loaded(s.reqs, s.workers[k]);
    hide Sound, Found, ConservedAt, Choice;
    if Direct(s.workers[k]) || !Concurrent(s.workers[k].workFor.value) {
      DirectConserves(s, k, pick, j);
    } else {
      FetchingConserves(s, k, pick, j);
    }
  }

  lemma TopConserves(s: Pool, k: nat, j: nat)
    requires Sound(s) && Enabled(s, Top(k)) && j < |s.reqs| && ConservedAt(s, j)
    ensures ConservedAt(WithWorker(s, k, Topped(s.workers[k])), j)
  {
    TopStays(s, k, j);
    OwnStays(s, k, Topped(s.workers[k]), j);
    hide *;
    StaysConserved(s, WithWorker(s, k, Topped(s.workers[k])), k, j);
  }

  lemma ReturnConserves(s: Pool, k: nat, j: nat)
    requires Sound(s) && Enabled(s, Return(k)) && j < |s.reqs| && ConservedAt(s, j)
    ensures ConservedAt(WithWorker(s, k, s.workers[k].(pc := Begin)), j)
  {
    ReturnStays(s, k, j);
    OwnStays(s, k, s.workers[k].(pc := Begin), j);
    hide *;
    StaysConserved(s, WithWorker(s, k, s.workers[k].(pc := Begin)), k, j);
  }

  lemma ResumeConserves(s: Pool, k: nat, j: nat)
    requires Sound(s) && Enabled(s, Resume(k)) && j < |s.reqs| && ConservedAt(s, j)
    ensures ConservedAt(WithWorker(s, k, Resumed(s.workers[k])), j)
  {
    ResumeStays(s, k, j);
    OwnStays(s, k, Resumed(s.workers[k]), j);
    hide *;
    StaysConserved(s, WithWorker(s, k, Resumed(s.workers[k])), k, j);
  }

  lemma ListingConserves(s: Pool, step: Step, j: nat)
    requires Sound(s) && Enabled(s, step) && j < |s.reqs| && ConservedAt(s, j)
    requires step.Park? || step.Leave? || step.Enlist?
    ensures ConservedAt(Effect(s, step), j)
  {
    hide Sound, ConservedAt, StaysPut, Parked, Left, Enlisted;
    match step {
      case Park(k) => ParkStays(s, k, j);
      case Leave(k) => LeaveStays(s, k, j);
      case Enlist(k) => EnlistStays(s, k, j);
    }
    StaysConserved(s, Effect(s, step), step.k, j);
  }

  lemma RequestConserves(s: Pool, step: Step, j: nat)
    requires Sound(s) && Enabled(s, step) && j < |s.reqs| && ConservedAt(s, j)
    requires step.Reserve? || step.Scale? || step.TakeIdle? || step.Create? || step.Equip? || step.Post?
    ensures ConservedAt(Effect(s, step), j)
  {
    hide Sound, ConservedAt, StaysPut, Enabled;
    hide Reserved, Scaled, IdleTaken, Created, Equipped, Posted;
    match step
    case Reserve(_) => AdmitConserves(s, step, j);
    case Scale(_) => AdmitConserves(s, step, j);
    case TakeIdle(i) => TakeIdleConserves(s, i, j);
    case Create(i) => CreateConserves(s, i, j);
    case Equip(i) => EquipConserves(s, i, j);
    case Post(i) => PostConserves(s, i, j);
  }

  lemma WorkerConserves(s: Pool, step: Step, j: nat)
    requires Sound(s) && Enabled(s, step) && j < |s.reqs| && ConservedAt(s, j)
    requires !step.Arrive? && !step.Reserve? && !step.Scale? && !step.TakeIdle? && !step.Create? && !step.Equip?
    requires !step.Post?
    ensures ConservedAt(Effect(s, step), j)
  {
    hide Sound, ConservedAt, Enabled, Completed, Released, Found, WithWorker, Topped, Resumed;
    match step
    case Complete(k) => CompleteConserves(s, k, j);
    case Release(k) => ReleaseConserves(s, k, j);
    case Find(k, pick) => FindConserves(s, k, pick, j);
    case Top(k) => TopConserves(s, k, j);
    case Return(k) => ReturnConserves(s, k, j);
    case Resume(k) => ResumeConserves(s, k, j);
    case _ => ListingConserves(s, step, j);
  }

  lemma StepConservesAt(s: Pool, step: Step, j: nat)
    requires Sound(s) && Enabled(s, step) && j < |Effect(s, step).reqs| && (j < |s.reqs| ==> ConservedAt(s, j))
    ensures ConservedAt(Effect(s, step), j)
  {
    SameOrOneMore(s, step);
    if step.Arrive? {
      hide Sound, ConservedAt, Arrived;
      ArriveConserves(s, step.f, j);
    } else {
      hide Sound, Enabled, Effect, ConservedAt;
      if step.Reserve? || step.Scale? || step.TakeIdle? || step.Create? || step.Equip? || step.Post? {
        RequestConserves(s, step, j);
      } else {
        WorkerConserves(s, step, j);
      }
    }
  }

  lemma StepConserves(s: Pool, step: Step)
    requires Sound(s) && Conserved(s) && Enabled(s, step)
    ensures Conserved(Effect(s, step))
  {
    hide Sound, Enabled, Effect, ConservedAt;
    forall j: nat | j < |Effect(s, step).reqs| ensures ConservedAt(Effect(s, step), j) {
      StepConservesAt(s, step, j);
    }
  }

  lemma SameOrOneMore(s: Pool, step: Step)
    requires Enabled(s, step)
    ensures |Effect(s, step).reqs| == |s.reqs| + One(step.Arrive?)
  {
  }
}
