/** The worker pool of one resource: requests, functions with a capacity counter, and workers, interleaved in any
    order. Each step is what the code does in one critical section. Stealing is off. */
module RfitPool {
  import opened Wrappers

  /** A registered function with its concurrency limit. */
  datatype Func = Func(name: string, limit: nat)

  predicate Concurrent(f: Func) {
    f.limit > 1
  }

  function Half(f: Func): nat {
    f.limit / 2
  }

  /** How far the thread that makes a request has got. An instance is known by the index of its request. */
  datatype Stage = Admitting | Scaling | Needing | Creating | Holding(w: nat) | Posting(w: nat) | Served

  /** A request, with how often its instance was completed and how often it was released. */
  datatype Req = Req(f: Func, stage: Stage, completed: nat, released: nat)

  datatype Pc = Begin | Completing | Releasing | Finding | Running | Leaving | Parking | Idling | Sleeping

  datatype Status = Idle | Busy | Neither

  /** A worker. The instance it deals with is never cleared, so it may name one released long ago. The last three
      fields only count. */
  datatype Worker = Worker(
    workFor: Option<Func>, dealWith: Option<nat>, directRun: bool, local: set<nat>, sem: nat, status: Status, pc: Pc,
    parks: nat, posts: nat, resumes: nat)

  datatype Pool = Pool(
    reqs: seq<Req>, workers: seq<Worker>, queues: map<Func, seq<nat>>, caps: map<Func, int>, idle: seq<nat>,
    busy: set<nat>)

  const INITIAL := Pool([], [], map[], map[], [], {})

  function Queue(s: Pool, f: Func): seq<nat> {
    if f in s.queues then s.queues[f] else []
  }

  function Cap(s: Pool, f: Func): int {
    if f in s.caps then s.caps[f] else 0
  }

  function FuncOf(s: Pool, i: nat): Func {
    if i < |s.reqs| then s.reqs[i].f else Func("", 0)
  }

  function Elements(s: seq<nat>): set<nat> {
    set x | x in s
  }

  // ------------------------------------------------------------------ fetching

  function Pulled(queue: seq<nat>, count: nat): seq<nat> {
    if count < |queue| then queue[..count] else queue
  }

  /** What a worker takes, keeps locally, and how many instances it pulled from the function's queue. */
  datatype Fetched = Fetched(taken: Option<nat>, local: set<nat>, pulled: nat)

  /** Take one instance; with at most half the limit left, pull as many more, and take one of those if there was none
      before. Which one is taken from the map is up to its order. */
  function Fetch(local: set<nat>, queue: seq<nat>, half: nat, pick: nat): Fetched {
    var first := if local == {} then None else Some(pick);
    var left := local - {pick};
    if local != {} && |left| > half then Fetched(first, left, 0)
    else
      var got := Pulled(queue, half);
      var all := if local == {} then Elements(got) else left + Elements(got);
      if got != [] && first == None then Fetched(Some(pick), all - {pick}, |got|)
      else Fetched(first, all, |got|)
  }

  predicate Choice(local: set<nat>, queue: seq<nat>, half: nat, pick: nat) {
    if local != {} then pick in local else Pulled(queue, half) != [] ==> pick in Pulled(queue, half)
  }

  // -------------------------------------------------------------------- steps

  datatype Step =
    | Arrive(f: Func)
    | Reserve(i: nat)
    | Scale(i: nat)
    | TakeIdle(i: nat)
    | Create(i: nat)
    | Equip(i: nat)
    | Post(i: nat)
    | Top(k: nat)
    | Complete(k: nat)
    | Release(k: nat)
    | Find(k: nat, pick: nat)
    | Return(k: nat)
    | Leave(k: nat)
    | Park(k: nat)
    | Enlist(k: nat)
    | Resume(k: nat)

  predicate AtStage(s: Pool, i: nat, stage: Stage) {
    i < |s.reqs| && s.reqs[i].stage == stage
  }

  predicate At(s: Pool, k: nat, pc: Pc) {
    k < |s.workers| && s.workers[k].pc == pc
  }

  predicate Direct(w: Worker) {
    w.dealWith.Some? && w.workFor.Some? && !Concurrent(w.workFor.value) && w.directRun
  }

  predicate Enabled(s: Pool, step: Step) {
    match step
    case Arrive(_) => true
    case Reserve(i) => AtStage(s, i, Admitting)
    case Scale(i) => AtStage(s, i, Scaling)
    case TakeIdle(i) => AtStage(s, i, Needing)
    case Create(i) => AtStage(s, i, Creating)
    case Equip(i) => i < |s.reqs| && s.reqs[i].stage.Holding? && s.reqs[i].stage.w < |s.workers|
    case Post(i) => i < |s.reqs| && s.reqs[i].stage.Posting? && s.reqs[i].stage.w < |s.workers|
    case Top(k) => At(s, k, Begin)
    case Complete(k) => At(s, k, Completing) && s.workers[k].dealWith.Some? && s.workers[k].dealWith.value < |s.reqs|
    case Release(k) => At(s, k, Releasing) && s.workers[k].dealWith.Some? && s.workers[k].dealWith.value < |s.reqs|
    case Find(k, pick) =>
      && At(s, k, Finding) && s.workers[k].workFor.Some?
      && var f := s.workers[k].workFor.value;
        Concurrent(f) ==> Choice(s.workers[k].local, Queue(s, f), Half(f), pick)
    case Return(k) => At(s, k, Running)
    case Leave(k) => At(s, k, Leaving) && s.workers[k].workFor.Some?
    case Park(k) => At(s, k, Parking)
    case Enlist(k) => At(s, k, Idling)
    case Resume(k) => At(s, k, Sleeping) && s.workers[k].sem > 0
  }

  function WithWorker(s: Pool, k: nat, w: Worker): Pool
    requires k < |s.workers|
  {
    s.(workers := s.workers[k := w])
  }

  function WithReq(s: Pool, i: nat, r: Req): Pool
    requires i < |s.reqs|
  {
    s.(reqs := s.reqs[i := r])
  }

  function WithStage(s: Pool, i: nat, stage: Stage): Pool
    requires i < |s.reqs|
  {
    WithReq(s, i, s.reqs[i].(stage := stage))
  }

  function WithCap(s: Pool, f: Func, change: int): Pool {
    s.(caps := s.caps[f := Cap(s, f) + change])
  }

  /** A request for a function that is not concurrent keeps its instance in hand until a worker is found. */
  function Arrived(s: Pool, f: Func): Pool {
    if Concurrent(f) then
      s.(reqs := s.reqs + [Req(f, Admitting, 0, 0)],
         queues := s.queues[f := Queue(s, f) + [|s.reqs|]])
    else s.(reqs := s.reqs + [Req(f, Needing, 0, 0)])
  }

  function Reserved(s: Pool, i: nat): Pool
    requires i < |s.reqs|
  {
    var f := s.reqs[i].f;
    if Cap(s, f) < 1 then WithStage(s, i, Scaling) else WithCap(WithStage(s, i, Served), f, -1)
  }

  function Scaled(s: Pool, i: nat): Pool
    requires i < |s.reqs|
  {
    WithCap(WithStage(s, i, Needing), s.reqs[i].f, s.reqs[i].f.limit - 1)
  }

  function IdleTaken(s: Pool, i: nat): Pool
    requires i < |s.reqs|
  {
    if s.idle == [] then WithStage(s, i, Creating)
    else
      var k := s.idle[0];
      var t := WithStage(s, i, Holding(k)).(idle := s.idle[1..]);
      if k < |s.workers| then WithWorker(t, k, s.workers[k].(status := Neither)) else t
  }

  function NewWorker(f: Func, i: nat): Worker {
    if Concurrent(f) then Worker(Some(f), None, false, {}, 0, Busy, Begin, 0, 0, 0)
    else Worker(Some(f), Some(i), true, {}, 0, Busy, Begin, 0, 0, 0)
  }

  function Created(s: Pool, i: nat): Pool
    requires i < |s.reqs|
  {
    var t := WithStage(s, i, Served);
    t.(workers := s.workers + [NewWorker(s.reqs[i].f, i)], busy := s.busy + {|s.workers|})
  }

  /** The worker's fields are seen by nobody else between its removal from the idle queue and its waking. */
  function Equipped(s: Pool, i: nat): Pool
    requires Enabled(s, Equip(i))
  {
    var k, f := s.reqs[i].stage.w, s.reqs[i].f;
    var w := s.workers[k].(workFor := Some(f), status := Busy);
    var w' := if Concurrent(f) then w else w.(dealWith := Some(i), directRun := true);
    WithWorker(WithStage(s, i, Posting(k)), k, w').(busy := s.busy + {k})
  }

  function Posted(s: Pool, i: nat): Pool
    requires Enabled(s, Post(i))
  {
    var k := s.reqs[i].stage.w;
    var w := s.workers[k];
    WithWorker(WithStage(s, i, Served), k, w.(sem := w.sem + 1, posts := w.posts + 1))
  }

  function Topped(w: Worker): Worker {
    w.(pc := if !w.directRun && w.dealWith.Some? then Completing else Finding)
  }

  function Completed(s: Pool, k: nat): Pool
    requires Enabled(s, Complete(k))
  {
    var w := s.workers[k];
    var i := w.dealWith.value;
    var r := s.reqs[i];
    var t := WithReq(WithWorker(s, k, w.(pc := Releasing)), i, r.(completed := r.completed + 1));
    if w.workFor.Some? && Concurrent(w.workFor.value) then WithCap(t, w.workFor.value, 1) else t
  }

  function Released(s: Pool, k: nat): Pool
    requires Enabled(s, Release(k))
  {
    var i := s.workers[k].dealWith.value;
    var r := s.reqs[i];
    WithReq(WithWorker(s, k, s.workers[k].(pc := Finding)), i, r.(released := r.released + 1))
  }

  function Found(s: Pool, k: nat, pick: nat): Pool
    requires Enabled(s, Find(k, pick))
  {
    var w := s.workers[k];
    var f := w.workFor.value;
    if Direct(w) then WithWorker(s, k, w.(directRun := false, pc := Running))
    else if !Concurrent(f) then WithWorker(s, k, w.(pc := Parking))
    else
      var got := Fetch(w.local, Queue(s, f), Half(f), pick);
      var t := s.(queues := s.queues[f := Queue(s, f)[got.pulled..]]);
      if got.taken == None then WithWorker(t, k, w.(local := got.local, pc := Leaving))
      else
        var taken := w.(local := got.local, workFor := Some(FuncOf(s, pick)), dealWith := Some(pick), pc := Running);
        WithWorker(t, k, taken)
  }

  function Left(s: Pool, k: nat): Pool
    requires Enabled(s, Leave(k))
  {
    var w := s.workers[k];
    var t := WithWorker(s, k, w.(pc := Parking));
    if Concurrent(w.workFor.value) then WithCap(t, w.workFor.value, 0 - w.workFor.value.limit) else t
  }

  function Parked(s: Pool, k: nat): Pool
    requires Enabled(s, Park(k))
  {
    var w := s.workers[k].(workFor := None, directRun := false, status := Neither, pc := Idling);
    WithWorker(s, k, w).(busy := s.busy - {k})
  }

  function Enlisted(s: Pool, k: nat): Pool
    requires Enabled(s, Enlist(k))
  {
    var w := s.workers[k];
    WithWorker(s, k, w.(status := Idle, pc := Sleeping, parks := w.parks + 1)).(idle := s.idle + [k])
  }

  function Resumed(w: Worker): Worker
    requires w.sem > 0
  {
    w.(sem := w.sem - 1, pc := Finding, resumes := w.resumes + 1)
  }

  function Effect(s: Pool, step: Step): Pool
    requires Enabled(s, step)
  {
    match step
    case Arrive(f) => Arrived(s, f)
    case Reserve(i) => Reserved(s, i)
    case Scale(i) => Scaled(s, i)
    case TakeIdle(i) => IdleTaken(s, i)
    case Create(i) => Created(s, i)
    case Equip(i) => Equipped(s, i)
    case Post(i) => Posted(s, i)
    case Top(k) => WithWorker(s, k, Topped(s.workers[k]))
    case Complete(k) => Completed(s, k)
    case Release(k) => Released(s, k)
    case Find(k, pick) => Found(s, k, pick)
    case Return(k) => WithWorker(s, k, s.workers[k].(pc := Begin))
    case Leave(k) => Left(s, k)
    case Park(k) => Parked(s, k)
    case Enlist(k) => Enlisted(s, k)
    case Resume(k) => WithWorker(s, k, Resumed(s.workers[k]))
  }
}
