/** Every step keeps the pool sound. */
module RfitSound {
  import opened Wrappers
  import opened Sums
  import opened RfitPool
  import opened RfitInvariants

  // ------------------------------------------------------- what workers carry

  /** The requests keep their functions. */
  predicate SameFuncs(a: seq<Req>, b: seq<Req>) {
    |a| <= |b| && forall i :: 0 <= i < |a| ==> b[i].f == a[i].f
  }

  lemma LoadedFrame(a: seq<Req>, b: seq<Req>, w: Worker)
    requires SameFuncs(a, b) && Loaded(a, w)
    ensures Loaded(b, w)
  {
    if w.local != {} {
      forall i | i in w.local ensures OwnInstance(b, w.workFor.value, i) {
        assert OwnInstance(a, w.workFor.value, i);
      }
    }
  }

  lemma StepSameFuncs(s: Pool, step: Step)
    requires Enabled(s, step)
    ensures SameFuncs(s.reqs, Effect(s, step).reqs)
  {
  }

  lemma {:induction false} ElementsSize(s: seq<nat>)
    ensures |Elements(s)| <= |s|
  {
    if s != [] {
      ElementsSize(s[1..]);
      assert s == [s[0]] + s[1..];
      assert Elements(s) == {s[0]} + Elements(s[1..]);
    }
  }

  /** Fetching leaves at most twice half the limit in the map, all from the map or the queue. */
  lemma FetchBounded(local: set<nat>, queue: seq<nat>, half: nat, pick: nat)
    requires Choice(local, queue, half, pick) && |local| <= 2 * half
    ensures var got := Fetch(local, queue, half, pick);
      && |got.local| <= 2 * half && (forall i :: i in got.local ==> i in local || i in queue)
  {
    ElementsSize(Pulled(queue, half));
  }

  lemma FetchedOwn(s: Pool, k: nat, pick: nat)
    requires Sound(s) && Enabled(s, Find(k, pick)) && Concurrent(s.workers[k].workFor.value)
    ensures var w := s.workers[k];
      var f := w.workFor.value;
      var got := Fetch(w.local, Queue(s, f), Half(f), pick);
      |got.local| <= 2 * Half(f) && forall i :: i in got.local ==> OwnInstance(s.reqs, f, i)
  {
    var w := s.workers[k];
    var f := w.workFor.value;
    var queue := Queue(s, f);
    assert Loaded(s.reqs, w);
    FetchBounded(w.local, queue, Half(f), pick);
    hide Fetch;
    forall i | i in Fetch(w.local, queue, Half(f), pick).local ensures OwnInstance(s.reqs, f, i) {
      if i !in w.local {
        var x :| 0 <= x < |queue| && queue[x] == i;
        assert OwnInstance(s.reqs, f, queue[x]);
      }
    }
  }

  /** A worker that took an instance of its function and keeps others of it. */
  lemma TakerLoaded(reqs: seq<Req>, w: Worker, f: Func, local: set<nat>, i: nat)
    requires OwnInstance(reqs, f, i) && |local| <= 2 * Half(f) && forall j :: j in local ==> OwnInstance(reqs, f, j)
    requires !w.directRun
    ensures Loaded(reqs, w.(local := local, workFor := Some(f), dealWith := Some(i), pc := Running))
  {
  }

  lemma FoundLoaded(s: Pool, k: nat, pick: nat)
    requires Sound(s) && Enabled(s, Find(k, pick))
    ensures Loaded(s.reqs, Found(s, k, pick).workers[k])
  {
    var w := s.workers[k];
    var f := w.workFor.value;
    assert Loaded(s.reqs, w);
    hide Fetch, Sound, Half;
    if !Direct(w) && Concurrent(f) {
      TakenOwn(s, k, pick);
      FetchedOwn(s, k, pick);
      var got := Fetch(w.local, Queue(s, f), Half(f), pick);
      if got.taken != None {
        TakerLoaded(s.reqs, w, f, got.local, pick);
      }
    }
  }

  lemma EquippedLoaded(s: Pool, i: nat)
    requires Sound(s) && Enabled(s, Equip(i))
    ensures Loaded(s.reqs, Equipped(s, i).workers[s.reqs[i].stage.w])
  {
    HeldAsleep(s, i);
    assert Loaded(s.reqs, s.workers[s.reqs[i].stage.w]);
  }

  lemma CreatedLoaded(s: Pool, i: nat)
    requires i < |s.reqs|
    ensures Loaded(s.reqs, NewWorker(s.reqs[i].f, i))
  {
  }

  lemma TopLoaded(reqs: seq<Req>, w: Worker)
    requires Loaded(reqs, w) && w.pc == Begin
    ensures Loaded(reqs, Topped(w))
  {
    hide OwnInstance, Half;
  }

  /** A worker that goes on from where it was. */
  predicate GoesOn(from: Pc, next: Pc) {
    || (from == Completing && next == Releasing)
    || (from == Releasing && next == Finding)
    || (from == Running && next == Begin)
    || (from == Leaving && next == Parking)
  }

  lemma GoesOnLoaded(reqs: seq<Req>, w: Worker, next: Pc)
    requires Loaded(reqs, w) && GoesOn(w.pc, next)
    ensures Loaded(reqs, w.(pc := next))
  {
    hide OwnInstance, Half;
  }

  lemma GoesOnAt(s: Pool, step: Step)
    requires Enabled(s, step) && (step.Complete? || step.Release? || step.Return? || step.Leave?)
    ensures var w' := Effect(s, step).workers[step.k];
      w' == s.workers[step.k].(pc := w'.pc) && GoesOn(s.workers[step.k].pc, w'.pc)
  {
  }

  lemma OwnLoaded(s: Pool, step: Step)
    requires Sound(s) && Enabled(s, step)
    requires step.Top? || step.Complete? || step.Release? || step.Return? || step.Leave?
    ensures Loaded(s.reqs, Effect(s, step).workers[step.k])
  {
    var w := s.workers[step.k];
    assert Loaded(s.reqs, w);
    if step.Top? {
      TopLoaded(s.reqs, w);
      hide Sound, Loaded, Topped;
    } else {
      GoesOnAt(s, step);
      hide Sound, Loaded, Effect, GoesOn;
      GoesOnLoaded(s.reqs, w, Effect(s, step).workers[step.k].pc);
    }
  }

  /** A worker that is parked, enlisted or resumed carries nothing but, perhaps, the instance it was handed. */
  lemma ParkLoaded(reqs: seq<Req>, w: Worker)
    requires Loaded(reqs, w) && w.pc == Parking
    ensures Loaded(reqs, w.(workFor := None, directRun := false, status := Neither, pc := Idling))
  {
    hide OwnInstance, Half;
  }

  lemma EnlistLoaded(reqs: seq<Req>, w: Worker)
    requires Loaded(reqs, w) && w.pc == Idling
    ensures Loaded(reqs, w.(status := Idle, pc := Sleeping, parks := w.parks + 1))
  {
    hide OwnInstance, Half;
  }

  lemma ResumeLoaded(reqs: seq<Req>, w: Worker)
    requires Loaded(reqs, w) && w.pc == Sleeping && w.sem > 0
    ensures Loaded(reqs, Resumed(w))
  {
    hide OwnInstance, Half;
  }

  lemma ListingLoaded(s: Pool, step: Step)
    requires Sound(s) && Enabled(s, step) && (step.Park? || step.Enlist? || step.Resume?)
    ensures Loaded(s.reqs, Effect(s, step).workers[step.k])
  {
    assert Loaded(s.reqs, s.workers[step.k]);
    hide Sound, Loaded, Resumed;
    match step
    case Park(k) => ParkLoaded(s.reqs, s.workers[k]);
    case Enlist(k) => EnlistLoaded(s.reqs, s.workers[k]);
    case Resume(k) => ResumeLoaded(s.reqs, s.workers[k]);
  }

  /** The worker a step changes, if there is one. */
  function Changed(s: Pool, step: Step): Option<nat> {
    match step
    case Arrive(_) => None
    case Reserve(_) => None
    case Scale(_) => None
    case TakeIdle(i) => if s.idle != [] then Some(s.idle[0]) else None
    case Create(_) => None
    case Equip(i) => if i < |s.reqs| && s.reqs[i].stage.Holding? then Some(s.reqs[i].stage.w) else None
    case Post(i) => if i < |s.reqs| && s.reqs[i].stage.Posting? then Some(s.reqs[i].stage.w) else None
    case Top(k) => Some(k)
    case Complete(k) => Some(k)
    case Release(k) => Some(k)
    case Find(k, _) => Some(k)
    case Return(k) => Some(k)
    case Leave(k) => Some(k)
    case Park(k) => Some(k)
    case Enlist(k) => Some(k)
    case Resume(k) => Some(k)
  }

  lemma OthersUnchanged(s: Pool, step: Step, k: nat)
    requires Enabled(s, step) && k < |s.workers| && Changed(s, step) != Some(k)
    ensures k < |Effect(s, step).workers| && Effect(s, step).workers[k] == s.workers[k]
  {
  }

  lemma WakingLoaded(s: Pool, step: Step)
    requires Sound(s) && Enabled(s, step) && ((step.TakeIdle? && s.idle != []) || step.Post?)
    ensures Loaded(s.reqs, Effect(s, step).workers[Changed(s, step).value])
  {
    assert s.idle != [] ==> s.idle[0] < |s.workers|;
    assert Loaded(s.reqs, s.workers[Changed(s, step).value]);
    hide Sound, OwnInstance;
  }

  lemma ChangedExists(s: Pool, step: Step)
    requires Bounded(s) && Enabled(s, step) && Changed(s, step).Some?
    ensures Changed(s, step).value < |s.workers| == |Effect(s, step).workers|
  {
  }

  lemma ChangedLoaded(s: Pool, step: Step)
    requires Sound(s) && Enabled(s, step) && Changed(s, step).Some?
    ensures Changed(s, step).value < |s.workers| == |Effect(s, step).workers|
    ensures Loaded(s.reqs, Effect(s, step).workers[Changed(s, step).value])
  {
    ChangedExists(s, step);
    hide Sound, Enabled, Loaded;
    hide Arrived, Reserved, Scaled, Created, Completed, Released, Found, Left, Parked, Enlisted, Resumed, Topped;
    match step
    case TakeIdle(_) => WakingLoaded(s, step);
    case Post(_) => WakingLoaded(s, step);
    case Equip(i) => EquippedLoaded(s, i);
    case Find(k, pick) => FoundLoaded(s, k, pick);
    case Park(_) => ListingLoaded(s, step);
    case Enlist(_) => ListingLoaded(s, step);
    case Resume(_) => ListingLoaded(s, step);
    case _ => OwnLoaded(s, step);
  }

  lemma StepLoaded(s: Pool, step: Step, k: nat)
    requires Sound(s) && Enabled(s, step) && k < |Effect(s, step).workers|
    ensures Loaded(Effect(s, step).reqs, Effect(s, step).workers[k])
  {
    StepSameFuncs(s, step);
    var t := Effect(s, step);
    if Changed(s, step) == Some(k) {
      ChangedLoaded(s, step);
    } else if k < |s.workers| {
      assert Loaded(s.reqs, s.workers[k]);
      OthersUnchanged(s, step, k);
    } else {
      NewLast(s, step, k);
      CreatedLoaded(s, step.i);
    }
    hide Sound, Loaded, Effect;
    LoadedFrame(s.reqs, t.reqs, t.workers[k]);
  }

  lemma NewLast(s: Pool, step: Step, k: nat)
    requires Enabled(s, step) && |s.workers| <= k < |Effect(s, step).workers|
    ensures step.Create? && k == |s.workers| && Effect(s, step).workers[k] == NewWorker(s.reqs[step.i].f, step.i)
  {
  }

  // --------------------------------------------------- lists, wakers, semaphores

  lemma WakerChange(s: Pool, t: Pool, i: nat, r: Req, k: nat)
    requires i < |s.reqs| && t.reqs == s.reqs[i := r]
    ensures Sum(t.reqs, Holds(k)) == Sum(s.reqs, Holds(k)) - Holds(k)(s.reqs[i]) + Holds(k)(r)
    ensures Sum(t.reqs, Posts(k)) == Sum(s.reqs, Posts(k)) - Posts(k)(s.reqs[i]) + Posts(k)(r)
  {
    SumUpdate(s.reqs, i, r, Holds(k));
    SumUpdate(s.reqs, i, r, Posts(k));
  }

  ghost predicate SameCounts(s: Pool, t: Pool, k: nat) {
    && t.idle == s.idle && t.busy == s.busy
    && Sum(t.reqs, Holds(k)) == Sum(s.reqs, Holds(k)) && Sum(t.reqs, Posts(k)) == Sum(s.reqs, Posts(k))
  }

  lemma ArriveCounts(s: Pool, f: Func, k: nat)
    ensures SameCounts(s, Arrived(s, f), k)
  {
    var r := Req(f, if Concurrent(f) then Admitting else Needing, 0, 0);
    assert Arrived(s, f).reqs == s.reqs + [r];
    SumAppend(s.reqs, r, Holds(k));
    SumAppend(s.reqs, r, Posts(k));
  }

  lemma AdmitCounts(s: Pool, step: Step, k: nat)
    requires Enabled(s, step) && (step.Reserve? || step.Scale?)
    ensures SameCounts(s, Effect(s, step), k)
  {
    var t := Effect(s, step);
    WakerChange(s, t, step.i, t.reqs[step.i], k);
    hide Sum;
  }

  lemma WorkCounts(s: Pool, step: Step, k: nat)
    requires Enabled(s, step) && (step.Complete? || step.Release?)
    ensures SameCounts(s, Effect(s, step), k)
  {
    var t, i := Effect(s, step), s.workers[step.k].dealWith.value;
    WakerChange(s, t, i, t.reqs[i], k);
    hide Sum;
  }

  predicate Quiet(step: Step) {
    step.Arrive? || step.Reserve? || step.Scale? || step.Complete? || step.Release? || step.Top? || step.Find?
    || step.Return? || step.Leave?
  }

  lemma QuietCounts(s: Pool, step: Step, k: nat)
    requires Enabled(s, step) && Quiet(step)
    ensures SameCounts(s, Effect(s, step), k)
  {
    hide Enabled;
    hide Arrived, Reserved, Scaled, IdleTaken, Created, Equipped, Posted, Completed, Released, Parked, Enlisted;
    match step
    case Arrive(f) => ArriveCounts(s, f, k);
    case Reserve(_) => AdmitCounts(s, step, k);
    case Scale(_) => AdmitCounts(s, step, k);
    case Complete(_) => WorkCounts(s, step, k);
    case Release(_) => WorkCounts(s, step, k);
    case _ =>
  }

  /** A worker that is awake before and after. */
  predicate StaysAwake(w: Worker, w': Worker) {
    && w.workFor.Some? == w'.workFor.Some? && w.status == w'.status && w.sem == w'.sem
    && w.parks == w'.parks && w.posts == w'.posts && w.resumes == w'.resumes
    && w.pc != Sleeping && w.pc != Idling && w'.pc != Sleeping && w'.pc != Idling
  }

  lemma QuietWorker(s: Pool, step: Step)
    requires Enabled(s, step) && Quiet(step) && Changed(s, step).Some?
    ensures step.k < |Effect(s, step).workers| && StaysAwake(s.workers[step.k], Effect(s, step).workers[step.k])
  {
    hide Fetch, Choice, Arrived, Reserved, Scaled, IdleTaken, Created, Equipped, Posted, Parked, Enlisted, Resumed;
  }

  lemma QuietListed(s: Pool, step: Step, k: nat)
    requires Sound(s) && Enabled(s, step) && Quiet(step) && k < |s.workers|
    ensures k < |Effect(s, step).workers| && Listed(Effect(s, step), k)
  {
    assert Listed(s, k);
    QuietCounts(s, step, k);
    if Changed(s, step) == Some(k) {
      QuietWorker(s, step);
    } else {
      OthersUnchanged(s, step, k);
    }
    hide Sound, Effect, Sum, Enabled;
  }

  lemma FirstIdle(idle: seq<nat>, k: nat)
    requires idle != []
    ensures multiset(idle[1..])[k] == multiset(idle)[k] - One(k == idle[0])
  {
    assert idle == [idle[0]] + idle[1..];
  }

  /** The worker taken is then in nobody's list. */
  lemma IdleAlone(s: Pool)
    requires Sound(s) && s.idle != []
    ensures var k := s.idle[0];
      && k < |s.workers| && s.workers[k].pc == Sleeping && k !in s.busy && multiset(s.idle)[k] == 1
      && s.workers[k].sem == 0 && Sum(s.reqs, Holds(k)) == 0 && Sum(s.reqs, Posts(k)) == 0
  {
    var k := s.idle[0];
    assert k < |s.workers|;
    assert Listed(s, k);
    assert NonNegative(Holds(k)) && NonNegative(Posts(k));
    SumNonNegative(s.reqs, Holds(k));
    SumNonNegative(s.reqs, Posts(k));
  }

  lemma IdleTakenAs(w: Worker)
    requires w.pc == Sleeping && ListedAs(w, 1, 0, 0, false)
    ensures ListedAs(w.(status := Neither), 0, 1, 0, false)
  {
  }

  lemma TakeIdleCounts(s: Pool, i: nat, k: nat)
    requires Enabled(s, TakeIdle(i))
    ensures var t := IdleTaken(s, i);
      && t.busy == s.busy && Sum(t.reqs, Posts(k)) == Sum(s.reqs, Posts(k))
      && Sum(t.reqs, Holds(k)) == Sum(s.reqs, Holds(k)) + One(s.idle != [] && s.idle[0] == k)
      && multiset(t.idle)[k] == multiset(s.idle)[k] - One(s.idle != [] && s.idle[0] == k)
  {
    if s.idle != [] {
      FirstIdle(s.idle, k);
    }
    hide Sum;
    WakerChange(s, IdleTaken(s, i), i, IdleTaken(s, i).reqs[i], k);
  }

  lemma TakeIdleWorker(s: Pool, i: nat, k: nat)
    requires Enabled(s, TakeIdle(i)) && k < |s.workers|
    ensures k < |IdleTaken(s, i).workers|
    ensures IdleTaken(s, i).workers[k]
      == if s.idle != [] && s.idle[0] == k then s.workers[k].(status := Neither) else s.workers[k]
  {
  }

  lemma TakeIdleListed(s: Pool, i: nat, k: nat)
    requires Sound(s) && Enabled(s, TakeIdle(i)) && k < |s.workers|
    ensures k < |IdleTaken(s, i).workers| && Listed(IdleTaken(s, i), k)
  {
    assert Listed(s, k);
    TakeIdleCounts(s, i, k);
    TakeIdleWorker(s, i, k);
    if s.idle != [] && s.idle[0] == k {
      IdleAlone(s);
      hide Sound, Sum, ListedAs, IdleTaken, Enabled;
      IdleTakenAs(s.workers[k]);
    }
    hide Sound, Sum, ListedAs, IdleTaken, Enabled;
  }

  lemma CreateListed(s: Pool, i: nat, k: nat)
    requires Sound(s) && Enabled(s, Create(i)) && k <= |s.workers|
    ensures k < |Created(s, i).workers| && Listed(Created(s, i), k)
  {
    var t := Created(s, i);
    WakerChange(s, t, i, t.reqs[i], k);
    if k < |s.workers| {
      assert Listed(s, k);
      hide Sound, Sum;
    } else {
      forall j | 0 <= j < |s.reqs| ensures Holds(k)(s.reqs[j]) == 0 && Posts(k)(s.reqs[j]) == 0 {
        assert ReqBounded(s.reqs[j], |s.workers|);
      }
      SumZero(s.reqs, Holds(k));
      SumZero(s.reqs, Posts(k));
      assert k !in s.idle;
      hide Sound, Sum;
    }
  }

  lemma EquipListed(s: Pool, i: nat, k: nat)
    requires Sound(s) && Enabled(s, Equip(i)) && k < |s.workers|
    ensures k < |Equipped(s, i).workers| && Listed(Equipped(s, i), k)
  {
    var t := Equipped(s, i);
    assert Listed(s, k);
    WakerChange(s, t, i, t.reqs[i], k);
    HeldAsleep(s, i);
    hide Sound, Sum;
  }

  lemma PostListed(s: Pool, i: nat, k: nat)
    requires Sound(s) && Enabled(s, Post(i)) && k < |s.workers|
    ensures k < |Posted(s, i).workers| && Listed(Posted(s, i), k)
  {
    var t := Posted(s, i);
    assert Listed(s, k);
    WakerChange(s, t, i, t.reqs[i], k);
    PostedAsleep(s, i);
    hide Sound, Sum;
  }

  lemma NoWakers(s: Pool, k: nat)
    requires Sound(s) && k < |s.workers| && s.workers[k].pc != Sleeping
    ensures multiset(s.idle)[k] == 0 && Sum(s.reqs, Holds(k)) == 0 && Sum(s.reqs, Posts(k)) == 0
    ensures s.workers[k].sem == 0 && (k in s.busy <==> s.workers[k].pc != Idling)
  {
    assert Listed(s, k);
    assert NonNegative(Holds(k)) && NonNegative(Posts(k));
    SumNonNegative(s.reqs, Holds(k));
    SumNonNegative(s.reqs, Posts(k));
  }

  lemma ParkListed(s: Pool, j: nat, k: nat)
    requires Sound(s) && Enabled(s, Park(j)) && k < |s.workers|
    ensures k < |Parked(s, j).workers| && Listed(Parked(s, j), k)
  {
    assert Listed(s, k);
    NoWakers(s, j);
    hide Sound, Sum;
  }

  lemma EnlistListed(s: Pool, j: nat, k: nat)
    requires Sound(s) && Enabled(s, Enlist(j)) && k < |s.workers|
    ensures k < |Enlisted(s, j).workers| && Listed(Enlisted(s, j), k)
  {
    assert Listed(s, k);
    NoWakers(s, j);
    assert multiset(s.idle + [j])[k] == multiset(s.idle)[k] + One(k == j);
    hide Sound, Sum;
  }

  lemma ResumeListed(s: Pool, j: nat, k: nat)
    requires Sound(s) && Enabled(s, Resume(j)) && k < |s.workers|
    ensures var t := WithWorker(s, j, Resumed(s.workers[j])); k < |t.workers| && Listed(t, k)
  {
    assert Listed(s, k);
    assert NonNegative(Holds(k)) && NonNegative(Posts(k));
    SumNonNegative(s.reqs, Holds(k));
    SumNonNegative(s.reqs, Posts(k));
    hide Sound, Sum;
  }

  lemma StepListed(s: Pool, step: Step, k: nat)
    requires Sound(s) && Enabled(s, step) && k < |Effect(s, step).workers|
    ensures Listed(Effect(s, step), k)
  {
    if |s.workers| <= k {
      NewLast(s, step, k);
    }
    hide Sound, Enabled, Listed;
    hide Arrived, Reserved, Scaled, IdleTaken, Created, Equipped, Posted, Completed, Released, Found, Left, Parked;
    hide Enlisted, Resumed, Topped;
    match step
    case TakeIdle(i) => TakeIdleListed(s, i, k);
    case Create(i) => CreateListed(s, i, k);
    case Equip(i) => EquipListed(s, i, k);
    case Post(i) => PostListed(s, i, k);
    case Park(j) => ParkListed(s, j, k);
    case Enlist(j) => EnlistListed(s, j, k);
    case Resume(j) => ResumeListed(s, j, k);
    case _ => QuietListed(s, step, k);
  }

  // ------------------------------------------------------------ queues, bounds

  lemma StepQueues(s: Pool, step: Step)
    requires Sound(s) && Enabled(s, step)
    ensures QueuesOk(Effect(s, step))
  {
    var t := Effect(s, step);
    StepSameFuncs(s, step);
    forall f: Func, j: nat | j < |Queue(t, f)| ensures OwnInstance(t.reqs, f, Queue(t, f)[j]) {
      QueuedFrom(s, step, f, j);
    }
  }

  lemma ArrivedQueue(s: Pool, g: Func, f: Func, j: nat)
    requires QueuesOk(s) && j < |Queue(Arrived(s, g), f)|
    ensures OwnInstance(Arrived(s, g).reqs, f, Queue(Arrived(s, g), f)[j])
  {
    assert j < |Queue(s, f)| ==> OwnInstance(s.reqs, f, Queue(s, f)[j]);
  }

  lemma SameQueues(s: Pool, step: Step)
    requires Enabled(s, step) && !step.Arrive? && !step.Find?
    ensures Effect(s, step).queues == s.queues
  {
  }

  lemma QueuedFrom(s: Pool, step: Step, f: Func, j: nat)
    requires Sound(s) && Enabled(s, step) && j < |Queue(Effect(s, step), f)|
    ensures OwnInstance(Effect(s, step).reqs, f, Queue(Effect(s, step), f)[j])
  {
    StepSameFuncs(s, step);
    hide Enabled, WorkersOk, Bounded, Arrived, Found;
    if step.Arrive? {
      ArrivedQueue(s, step.f, f, j);
    } else if step.Find? {
      FoundQueue(s, step.k, step.pick, f, j);
      OwnKeepsReqs(s, step);
    } else {
      SameQueues(s, step);
      hide Effect;
      assert Queue(Effect(s, step), f) == Queue(s, f);
      assert OwnInstance(s.reqs, f, Queue(s, f)[j]);
    }
  }

  lemma FoundQueue(s: Pool, k: nat, pick: nat, f: Func, j: nat)
    requires Sound(s) && Enabled(s, Find(k, pick)) && j < |Queue(Found(s, k, pick), f)|
    ensures OwnInstance(s.reqs, f, Queue(Found(s, k, pick), f)[j])
  {
    var w := s.workers[k];
    if !Direct(w) && Concurrent(w.workFor.value) && f == w.workFor.value {
      TakenOwn(s, k, pick);
      hide Fetch;
      var pulled := Fetch(w.local, Queue(s, f), Half(f), pick).pulled;
      assert OwnInstance(s.reqs, f, Queue(s, f)[pulled + j]);
    } else {
      assert OwnInstance(s.reqs, f, Queue(s, f)[j]);
    }
  }

  lemma SameLists(s: Pool, step: Step)
    requires Enabled(s, step) && (Quiet(step) || step.Post? || step.Resume?)
    ensures var t := Effect(s, step); t.idle == s.idle && t.busy == s.busy && |t.workers| == |s.workers|
  {
    hide Fetch;
  }

  predicate ListsBounded(s: Pool) {
    (forall j :: 0 <= j < |s.idle| ==> s.idle[j] < |s.workers|) && (forall k :: k in s.busy ==> k < |s.workers|)
  }

  lemma ListingBounded(s: Pool, step: Step)
    requires Bounded(s) && Enabled(s, step)
    requires step.TakeIdle? || step.Create? || step.Equip? || step.Park? || step.Enlist?
    ensures ListsBounded(Effect(s, step))
  {
    if step.Enlist? {
      assert Effect(s, step).idle == s.idle + [step.k];
    }
  }

  lemma StepLists(s: Pool, step: Step)
    requires Sound(s) && Enabled(s, step)
    ensures ListsBounded(Effect(s, step))
  {
    if Quiet(step) || step.Post? || step.Resume? {
      SameLists(s, step);
      hide QueuesOk, WorkersOk, Enabled, Effect;
    } else {
      hide QueuesOk, WorkersOk, Enabled, Effect;
      ListingBounded(s, step);
    }
  }

  lemma AdmissionBounded(s: Pool, step: Step, i: nat)
    requires Bounded(s) && Enabled(s, step) && (step.Arrive? || step.Reserve? || step.Scale?)
    requires i < |Effect(s, step).reqs|
    ensures ReqBounded(Effect(s, step).reqs[i], |Effect(s, step).workers|)
  {
    assert i < |s.reqs| ==> ReqBounded(s.reqs[i], |s.workers|);
    hide Bounded, Cap;
  }

  lemma HandOverBounded(s: Pool, step: Step, i: nat)
    requires Bounded(s) && Enabled(s, step) && (step.TakeIdle? || step.Create? || step.Equip? || step.Post?)
    requires i < |Effect(s, step).reqs|
    ensures ReqBounded(Effect(s, step).reqs[i], |Effect(s, step).workers|)
  {
    assert ReqBounded(s.reqs[i], |s.workers|);
    assert s.idle != [] ==> s.idle[0] < |s.workers|;
    hide Bounded;
  }

  lemma StageKeptBounded(s: Pool, step: Step, i: nat)
    requires Bounded(s) && Enabled(s, step) && (step.Complete? || step.Release?) && i < |Effect(s, step).reqs|
    ensures ReqBounded(Effect(s, step).reqs[i], |Effect(s, step).workers|)
  {
    assert ReqBounded(s.reqs[i], |s.workers|);
    hide Bounded;
  }

  lemma OwnKeepsReqs(s: Pool, step: Step)
    requires Enabled(s, step)
    requires step.Top? || step.Find? || step.Return? || step.Leave? || step.Park? || step.Enlist? || step.Resume?
    ensures Effect(s, step).reqs == s.reqs && |Effect(s, step).workers| == |s.workers|
  {
    hide Fetch;
  }

  lemma StepReqBounded(s: Pool, step: Step, i: nat)
    requires Bounded(s) && Enabled(s, step) && i < |Effect(s, step).reqs|
    ensures ReqBounded(Effect(s, step).reqs[i], |Effect(s, step).workers|)
  {
    assert i < |s.reqs| ==> ReqBounded(s.reqs[i], |s.workers|);
    hide Bounded, Enabled, Effect, ReqBounded;
    if step.Arrive? || step.Reserve? || step.Scale? {
      AdmissionBounded(s, step, i);
    } else if step.TakeIdle? || step.Create? || step.Equip? || step.Post? {
      HandOverBounded(s, step, i);
    } else if step.Complete? || step.Release? {
      StageKeptBounded(s, step, i);
    } else {
      OwnKeepsReqs(s, step);
    }
  }

  lemma StepBounded(s: Pool, step: Step)
    requires Sound(s) && Enabled(s, step)
    ensures Bounded(Effect(s, step))
  {
    StepLists(s, step);
    hide QueuesOk, WorkersOk, Enabled, Effect, ReqBounded;
    forall i | 0 <= i < |Effect(s, step).reqs|
      ensures ReqBounded(Effect(s, step).reqs[i], |Effect(s, step).workers|)
    {
      StepReqBounded(s, step, i);
    }
  }

  lemma StepSound(s: Pool, step: Step)
    requires Sound(s) && Enabled(s, step)
    ensures Sound(Effect(s, step))
  {
    StepQueues(s, step);
    StepBounded(s, step);
    hide Enabled, Effect, Loaded, Listed, Bounded, QueuesOk;
    forall k: nat | k < |Effect(s, step).workers|
      ensures Loaded(Effect(s, step).reqs, Effect(s, step).workers[k]) && Listed(Effect(s, step), k)
    {
      StepLoaded(s, step, k);
      StepListed(s, step, k);
    }
  }
}
