/** What the replicated state promises: masked merges, no lost updates, and where a copy is just a byte array. */
module StateProperties {
  import opened Bytes
  import opened HostPages
  import opened StateChunks
  import opened StateReplica

  // ------------------------------------------------------------ partial push

  /** A dirty copy's partial push merges its masked bytes into the master, leaves the rest of the master alone,
      and, once the copy is fully allocated, leaves copy and master equal as far as the streaming chunks reach. */
  lemma PartialPushMerges(r: Replica, m: Replica, r': Replica, m': Replica)
    requires Shaped(r) && Shaped(m) && m.size == r.size && m.master && !r.master && r.isDirty
    requires PushedPartial(r, m, r', m')
    ensures m'.mem == Merged(m.mem, r.mem, r.dirty) && |r'.mem| == |r.mem|
    ensures var end := StreamingEnd(r.size);
      r.fullyAllocated ==> r'.mem == m'.mem[..end] + r.mem[end..]
    ensures !r.fullyAllocated ==> r'.mem == r.mem
    ensures !r'.isDirty && r'.dirty == Cleared(r.dirty)
  {
    hide PushAll, ServeAll, CopyAll, AllChunks, Merged, ReservedBytes, StreamingEnd;
    AllChunksWithin(r.size);
    var chunks :| && DirtyRuns(r.dirty, chunks)
      && var pushed := PushAll(m, r.mem, chunks);
         var clean := r.(dirty := Cleared(r.dirty), isDirty := false);
         if r.fullyAllocated then
           && r' == clean.(mem := CopyAll(r.mem, pushed.mem, AllChunks(r.size)))
           && m' == ServeAll(pushed, AllChunks(r.size))
         else r' == clean && m' == pushed;
    PushAllBytes(m, r.mem, chunks);
    PushIsMaskedMerge(m.mem, r.mem, r.dirty, chunks);
    if r.fullyAllocated {
      WholePull(r.mem, PushAll(m, r.mem, chunks).mem, r.size);
    }
  }

  /** A whole value set on a copy is not marked dirty: the next partial push sends only bytes marked before,
      and the value survives it exactly where the master already held it or the mask was set. */
  lemma SetThenPartialPush(r: Replica, value: seq<byte>, m: Replica, r': Replica, m': Replica)
    requires Shaped(r) && Shaped(m) && m.size == r.size && m.master && !r.master && |value| == r.size
    requires PushedPartial(WithValue(r, value), m, r', m')
    ensures m'.mem == Merged(m.mem, Put(r.mem, 0, value), r.dirty)
    ensures r'.mem[..r.size] == value
       <==> forall i :: 0 <= i < StreamingEnd(r.size) && !On(r.dirty, i) ==> m.mem[i] == value[i]
  {
    hide PushedPartial, Merged, Put, ReservedBytes, PagesOf, StreamingEnd;
    var s, end := WithValue(r, value), StreamingEnd(r.size);
    PartialPushMerges(s, m, r', m');
    assert s.fullyAllocated;
    assert forall i :: 0 <= i < end ==> m'.mem[i] == if On(r.dirty, i) then value[i] else m.mem[i];
    assert forall i :: 0 <= i < r.size ==> r'.mem[..r.size][i] == if i < end then m'.mem[i] else value[i];
  }

  /** A chunk that was set reaches the master with the next partial push, next to what was dirty before. */
  lemma SetChunkDelivered(r: Replica, offset: nat, data: seq<byte>, m: Replica, r': Replica, m': Replica)
    requires Shaped(r) && Shaped(m) && m.size == r.size && m.master && !r.master && offset + |data| <= r.size
    requires PushedPartial(WithChunk(r, offset, data), m, r', m')
    ensures m'.mem == Put(Merged(m.mem, r.mem, r.dirty), offset, data)
  {
    hide PushedPartial, ReservedBytes, PagesOf, StreamingEnd;
    PartialPushMerges(WithChunk(r, offset, data), m, r', m');
  }

  /** So do the bytes of a chunk that was only flagged as dirty; the flag alone sends the bytes marked before. */
  lemma FlaggedDelivered(r: Replica, c: Chunk, m: Replica, r': Replica, m': Replica)
    requires Shaped(r) && Shaped(m) && m.size == r.size && m.master && !r.master && c.offset + c.length <= r.size
    ensures PushedPartial(WithDirtyChunk(r, c.offset, c.length), m, r', m') ==>
              m'.mem == Overlay(Merged(m.mem, r.mem, r.dirty), r.mem, c)
    ensures PushedPartial(WithDirtyFlag(r), m, r', m') ==> m'.mem == Merged(m.mem, r.mem, r.dirty)
  {
    hide PushedPartial, ReservedBytes, PagesOf, StreamingEnd;
    var chunk, flag := WithDirtyChunk(r, c.offset, c.length), WithDirtyFlag(r);
    if PushedPartial(chunk, m, r', m') {
      PartialPushMerges(chunk, m, r', m');
    }
    if PushedPartial(flag, m, r', m') {
      PartialPushMerges(flag, m, r', m');
    }
  }

  /** What was pushed is not pushed again: the next push does nothing, and even a copy flagged as dirty in between
      sends no byte. */
  lemma PushedOnce(r: Replica, m: Replica, r': Replica, m': Replica, r'': Replica, m'': Replica)
    requires Shaped(r) && Shaped(m) && m.size == r.size && m.master && !r.master && PushedPartial(r, m, r', m')
    ensures (PushedShaped(r, m, r', m');
      && (PushedPartial(r', m', r'', m'') ==> r'' == r' && m'' == m')
      && (r.isDirty && PushedPartial(WithDirtyFlag(r'), m', r'', m'') ==> m''.mem == m'.mem))
  {
    PushedShaped(r, m, r', m');
    if r.isDirty {
      PartialPushMerges(r, m, r', m');
      if PushedPartial(WithDirtyFlag(r'), m', r'', m'') {
        FlaggedDelivered(r', Chunk(0, 0), m', r'', m'');
      }
    }
    hide PushAll, ServeAll, CopyAll, AllChunks, ReservedBytes, StreamingEnd, DirtyRuns;
  }

  /** A value that was set is what lazy reads give from then on, the whole of it and each chunk, whatever the master
      holds. */
  lemma SetReadsBack(r: Replica, value: seq<byte>, source: seq<byte>, c: Chunk)
    requires Shaped(r) && |value| == r.size && c.offset + c.length <= r.size
    ensures var s := WithValue(r, value);
      && s.mem[..r.size] == value
      && PullWhole(s, source, true) == s && PullChunk(s, source, true, c) == s
  {
    hide ReservedBytes, PagesOf, AllChunks;
    assert WithValue(r, value).mem[..r.size] == value;
  }

  // --------------------------------------------------------- no lost updates

  /** A copy that is pushing: its bytes, its mask and the runs of the mask. */
  datatype Pusher = Pusher(local: seq<byte>, mask: seq<byte>, runs: seq<Chunk>)

  ghost predicate Pushers(ps: seq<Pusher>, size: nat, reserved: nat) {
    && size <= reserved
    && (forall p :: 0 <= p < |ps| ==>
          |ps[p].local| == reserved && |ps[p].mask| == size && DirtyRuns(ps[p].mask, ps[p].runs))
    && (forall p, q, i :: 0 <= p < |ps| && 0 <= q < |ps| && p != q && 0 <= i < size ==>
          !(On(ps[p].mask, i) && On(ps[q].mask, i)))
  }

  /** The master's bytes, and how many of its runs each copy has sent. */
  datatype Pushing = Pushing(master: seq<byte>, sent: seq<nat>)

  /** One copy's next run arrives at the master. */
  function PushNext(ps: seq<Pusher>, s: Pushing, p: nat): Pushing
    requires |s.sent| == |ps|
  {
    if p < |ps| && s.sent[p] < |ps[p].runs| then
      Pushing(Overlay(s.master, ps[p].local, ps[p].runs[s.sent[p]]), s.sent[p := s.sent[p] + 1])
    else s
  }

  function PushSchedule(ps: seq<Pusher>, s: Pushing, schedule: seq<nat>): (t: Pushing)
    requires |s.sent| == |ps|
    ensures |t.sent| == |ps|
    decreases |schedule|
  {
    if schedule == [] then s else PushSchedule(ps, PushNext(ps, s, schedule[0]), schedule[1..])
  }

  predicate Finished(ps: seq<Pusher>, s: Pushing) {
    |s.sent| == |ps| && forall p :: 0 <= p < |ps| ==> s.sent[p] >= |ps[p].runs|
  }

  /** Of each copy's bytes the master has exactly those of the runs sent so far. */
  ghost predicate PushInvariant(ps: seq<Pusher>, initial: seq<byte>, s: Pushing) {
    && |s.master| == |initial| && |s.sent| == |ps|
    && (forall p :: 0 <= p < |ps| ==> s.sent[p] <= |ps[p].runs|)
    && (forall p, i :: 0 <= p < |ps| && 0 <= i < |initial| && InSome(i, ps[p].runs[..s.sent[p]]) ==>
          i < |ps[p].local| && s.master[i] == ps[p].local[i])
    && (forall i :: 0 <= i < |initial| && (forall p :: 0 <= p < |ps| ==> !InSome(i, ps[p].runs[..s.sent[p]])) ==>
          s.master[i] == initial[i])
  }

  lemma SentMore(runs: seq<Chunk>, k: nat, i: int)
    requires k < |runs|
    ensures InSome(i, runs[..k + 1]) <==> InSome(i, runs[..k]) || InChunk(i, runs[k])
  {
    assert runs[..k + 1] == runs[..k] + [runs[k]];
    InSomeAppended(i, runs[..k], runs[k]);
  }

  lemma SentIsMasked(p: Pusher, k: nat, i: int)
    requires DirtyRuns(p.mask, p.runs) && k <= |p.runs| && InSome(i, p.runs[..k])
    ensures 0 <= i < |p.mask| && On(p.mask, i)
  {
    var j :| 0 <= j < k && InChunk(i, p.runs[..k][j]);
    assert InChunk(i, p.runs[j]);
    assert InSome(i, p.runs);
  }

  lemma PushNextKeeps(ps: seq<Pusher>, size: nat, initial: seq<byte>, s: Pushing, p: nat)
    requires Pushers(ps, size, |initial|) && PushInvariant(ps, initial, s)
    ensures PushInvariant(ps, initial, PushNext(ps, s, p))
  {
    hide DirtyRuns, InSome, Overlay;
    if p < |ps| && s.sent[p] < |ps[p].runs| {
      var c, t := ps[p].runs[s.sent[p]], PushNext(ps, s, p);
      forall q, i | 0 <= q < |ps| && 0 <= i < |initial| && InSome(i, ps[q].runs[..t.sent[q]])
        ensures i < |ps[q].local| && t.master[i] == ps[q].local[i]
      {
        SentIsMasked(ps[q], t.sent[q], i);
        SentMore(ps[p].runs, s.sent[p], i);
        if q != p && InChunk(i, c) {
          SentIsMasked(ps[p], t.sent[p], i);
          assert false;
        }
      }
      forall i | 0 <= i < |initial| && (forall q :: 0 <= q < |ps| ==> !InSome(i, ps[q].runs[..t.sent[q]]))
        ensures t.master[i] == initial[i]
      {
        SentMore(ps[p].runs, s.sent[p], i);
        assert !InChunk(i, c);
        assert forall q :: 0 <= q < |ps| ==> !InSome(i, ps[q].runs[..s.sent[q]]) by {
          assert forall q :: 0 <= q < |ps| && q != p ==> t.sent[q] == s.sent[q];
        }
      }
    }
  }

  lemma {:induction false} PushScheduleKeeps(
    ps: seq<Pusher>, size: nat, initial: seq<byte>, s: Pushing, schedule: seq<nat>)
    requires Pushers(ps, size, |initial|) && PushInvariant(ps, initial, s)
    ensures PushInvariant(ps, initial, PushSchedule(ps, s, schedule))
    decreases |schedule|
  {
    hide PushInvariant, PushNext, Pushers;
    if schedule != [] {
      assert |s.sent| == |ps| by { SentShape(ps, initial, s); }
      PushNextKeeps(ps, size, initial, s, schedule[0]);
      SentShape(ps, initial, PushNext(ps, s, schedule[0]));
      PushScheduleKeeps(ps, size, initial, PushNext(ps, s, schedule[0]), schedule[1..]);
    }
  }

  lemma SentShape(ps: seq<Pusher>, initial: seq<byte>, s: Pushing)
    requires PushInvariant(ps, initial, s)
    ensures |s.sent| == |ps|
  {
  }

  function NothingSent(ps: seq<Pusher>, initial: seq<byte>): Pushing {
    Pushing(initial, seq(|ps|, _ => 0))
  }

  /** No lost updates: however the pushes of copies with disjoint masks interleave, in the end the master holds
      each byte of the copy that dirtied it, and its old bytes elsewhere. */
  lemma NoLostUpdates(ps: seq<Pusher>, size: nat, initial: seq<byte>, schedule: seq<nat>)
    requires Pushers(ps, size, |initial|)
    requires Finished(ps, PushSchedule(ps, NothingSent(ps, initial), schedule))
    ensures var master := PushSchedule(ps, NothingSent(ps, initial), schedule).master;
      && |master| == |initial|
      && (forall p, i :: 0 <= p < |ps| && 0 <= i < size && On(ps[p].mask, i) ==> master[i] == ps[p].local[i])
      && (forall i :: 0 <= i < |initial| && (forall p :: 0 <= p < |ps| && i < size ==> !On(ps[p].mask, i)) ==>
            master[i] == initial[i])
  {
    hide PushSchedule, InSome;
    var start, end := NothingSent(ps, initial), PushSchedule(ps, NothingSent(ps, initial), schedule);
    assert PushInvariant(ps, initial, start) by {
      forall p, i | 0 <= p < |ps| ensures !InSome(i, ps[p].runs[..0]) {
        NoneSent(ps[p].runs, i);
      }
    }
    PushScheduleKeeps(ps, size, initial, start, schedule);
    assert forall p :: 0 <= p < |ps| ==> ps[p].runs[..end.sent[p]] == ps[p].runs;
    forall p, i | 0 <= p < |ps| && InSome(i, ps[p].runs) ensures 0 <= i < size && On(ps[p].mask, i) {
      assert ps[p].runs == ps[p].runs[..|ps[p].runs|];
      SentIsMasked(ps[p], |ps[p].runs|, i);
    }
  }

  lemma NoneSent(runs: seq<Chunk>, i: int)
    ensures !InSome(i, runs[..0])
  {
  }

  /** So the order of the pushes does not matter. */
  lemma PushOrderIrrelevant(ps: seq<Pusher>, size: nat, initial: seq<byte>, a: seq<nat>, b: seq<nat>)
    requires Pushers(ps, size, |initial|)
    requires Finished(ps, PushSchedule(ps, NothingSent(ps, initial), a))
    requires Finished(ps, PushSchedule(ps, NothingSent(ps, initial), b))
    ensures PushSchedule(ps, NothingSent(ps, initial), a).master == PushSchedule(ps, NothingSent(ps, initial), b).master
  {
    hide PushSchedule, Pushers, Finished;
    NoLostUpdates(ps, size, initial, a);
    NoLostUpdates(ps, size, initial, b);
    var x := PushSchedule(ps, NothingSent(ps, initial), a).master;
    var y := PushSchedule(ps, NothingSent(ps, initial), b).master;
    forall i | 0 <= i < |initial| ensures x[i] == y[i] {
      MaskSizes(ps, size, |initial|);
      if p :| 0 <= p < |ps| && i < size && On(ps[p].mask, i) {
        assert x[i] == ps[p].local[i] == y[i];
      }
    }
  }

  lemma MaskSizes(ps: seq<Pusher>, size: nat, reserved: nat)
    requires Pushers(ps, size, reserved)
    ensures forall p :: 0 <= p < |ps| ==> |ps[p].mask| == size && |ps[p].local| == reserved
    ensures size <= reserved
  {
  }

  // ----------------------------------------------------- the same at the server

  /** What a master serves: a copy's next run, or a request for a chunk. */
  datatype Event = Push(p: nat) | Ask(c: Chunk)

  datatype Serving = Serving(m: Replica, sent: seq<nat>)

  function Served(ps: seq<Pusher>, s: Serving, e: Event): (t: Serving)
    requires |s.sent| == |ps|
    ensures |t.sent| == |ps|
  {
    match e
    case Push(p) =>
      if p < |ps| && s.sent[p] < |ps[p].runs| && Within(ps[p].runs, |ps[p].local|) then
        var c := ps[p].runs[s.sent[p]];
        Serving(WithChunk(s.m, c.offset, ps[p].local[c.offset..c.offset + c.length]), s.sent[p := s.sent[p] + 1])
      else s
    case Ask(c) => if c.offset + c.length <= |s.m.pulled| then s.(m := PullChunk(s.m, [], true, c)) else s
  }

  function ServedAll(ps: seq<Pusher>, s: Serving, events: seq<Event>): (t: Serving)
    requires |s.sent| == |ps|
    ensures |t.sent| == |ps|
    decreases |events|
  {
    if events == [] then s else ServedAll(ps, Served(ps, s, events[0]), events[1..])
  }

  /** The pushes among the events. */
  function PushesOf(events: seq<Event>): seq<nat> {
    if events == [] then []
    else (if events[0].Push? then [events[0].p] else []) + PushesOf(events[1..])
  }

  lemma ServedPush(ps: seq<Pusher>, size: nat, s: Serving, e: Event)
    requires Pushers(ps, size, |s.m.mem|) && |s.sent| == |ps| && s.m.master
    ensures var t := Served(ps, s, e);
      && t.m.master && |t.m.mem| == |s.m.mem|
      && Pushing(t.m.mem, t.sent) == if e.Push? then PushNext(ps, Pushing(s.m.mem, s.sent), e.p)
                                     else Pushing(s.m.mem, s.sent)
  {
    if e.Push? && e.p < |ps| {
      assert DirtyRuns(ps[e.p].mask, ps[e.p].runs);
      if s.sent[e.p] < |ps[e.p].runs| {
        PutIsOverlay(s.m.mem, ps[e.p].local, ps[e.p].runs[s.sent[e.p]]);
      }
    }
  }

  lemma {:induction false} ServedPushes(ps: seq<Pusher>, size: nat, s: Serving, events: seq<Event>)
    requires Pushers(ps, size, |s.m.mem|) && |s.sent| == |ps| && s.m.master
    ensures var t := ServedAll(ps, s, events);
      Pushing(t.m.mem, t.sent) == PushSchedule(ps, Pushing(s.m.mem, s.sent), PushesOf(events))
    decreases |events|
  {
    hide Pushers, Served, PushNext;
    if events != [] {
      ServedPush(ps, size, s, events[0]);
      ServedPushes(ps, size, Served(ps, s, events[0]), events[1..]);
      if events[0].Push? {
        assert PushesOf(events)[1..] == PushesOf(events[1..]);
      } else {
        assert PushesOf(events) == PushesOf(events[1..]);
      }
    }
  }

  /** No update is lost at a master that serves requests for chunks in between, wherever they come. */
  lemma NoLostUpdatesServed(ps: seq<Pusher>, m: Replica, events: seq<Event>)
    requires Pushers(ps, m.size, |m.mem|) && m.master
    requires var s := Serving(m, seq(|ps|, _ => 0));
      forall p :: 0 <= p < |ps| ==> ServedAll(ps, s, events).sent[p] >= |ps[p].runs|
    ensures var t := ServedAll(ps, Serving(m, seq(|ps|, _ => 0)), events).m;
      && |t.mem| == |m.mem|
      && (forall p, i :: 0 <= p < |ps| && 0 <= i < m.size && On(ps[p].mask, i) ==> t.mem[i] == ps[p].local[i])
      && (forall i :: 0 <= i < |m.mem| && (forall p :: 0 <= p < |ps| && i < m.size ==> !On(ps[p].mask, i)) ==>
            t.mem[i] == m.mem[i])
  {
    ServedPushes(ps, m.size, Serving(m, seq(|ps|, _ => 0)), events);
    assert NothingSent(ps, m.mem) == Pushing(m.mem, seq(|ps|, _ => 0));
    hide Pushers, ServedAll, PushSchedule;
    NoLostUpdates(ps, m.size, m.mem, PushesOf(events));
  }

  // ------------------------------------------- a settled copy is a byte array

  /** The reads and writes of a value. */
  datatype Access =
    | SetOp(value: seq<byte>)
    | SetChunkOp(offset: nat, data: seq<byte>)
    | GetOp
    | GetChunkOp(start: nat, length: nat)

  predicate InBounds(a: Access, size: nat) {
    match a
    case SetOp(value) => |value| == size
    case SetChunkOp(offset, data) => offset + |data| <= size
    case GetOp => true
    case GetChunkOp(start, length) => start + length <= size
  }

  /** An access to a copy, with the bytes its master would answer with: the copy afterwards and what was read. */
  function Accessed(r: Replica, source: seq<byte>, a: Access): (Replica, seq<byte>)
    requires Shaped(r) && InBounds(a, r.size)
  {
    match a
    case SetOp(value) => (WithValue(r, value), [])
    case SetChunkOp(offset, data) => (WithChunk(r, offset, data), [])
    case GetOp => var p := PullWhole(r, source, true); (p, p.mem[..r.size])
    case GetChunkOp(start, length) =>
      var p := PullChunk(r, source, true, Chunk(start, length)); (p, p.mem[start..start + length])
  }

  /** The same access to a plain array. */
  function ArrayAccessed(value: seq<byte>, a: Access): (seq<byte>, seq<byte>)
    requires InBounds(a, |value|)
  {
    match a
    case SetOp(v) => (v, [])
    case SetChunkOp(offset, data) => (value[..offset] + data + value[offset + |data|..], [])
    case GetOp => (value, value)
    case GetChunkOp(start, length) => (value, value[start..start + length])
  }

  predicate Settled(r: Replica) {
    r.master || r.fullyPulled
  }

  lemma AccessRefines(r: Replica, source: seq<byte>, a: Access)
    requires Shaped(r) && Settled(r) && InBounds(a, r.size)
    ensures var (s, out) := Accessed(r, source, a);
      && Shaped(s) && Settled(s) && s.size == r.size
      && (s.mem[..s.size], out) == ArrayAccessed(r.mem[..r.size], a)
  {
    hide ReservedBytes, PagesOf, CopyAll, Overlay, Marked;
    match a
    case SetOp(value) => assert Put(r.mem, 0, value)[..r.size] == value;
    case SetChunkOp(offset, data) =>
      var v := r.mem[..r.size];
      assert Put(r.mem, offset, data)[..r.size] == v[..offset] + data + v[offset + |data|..];
    case GetOp =>
    case GetChunkOp(start, length) =>
      assert r.mem[..r.size][start..start + length] == r.mem[start..start + length];
  }

  /** The outputs of a run of accesses, each with the bytes its master would answer with at that time. */
  function RunCopy(r: Replica, sources: seq<seq<byte>>, accesses: seq<Access>): (run: (Replica, seq<seq<byte>>))
    requires Shaped(r) && Settled(r) && |sources| == |accesses|
    requires forall k :: 0 <= k < |accesses| ==> InBounds(accesses[k], r.size)
    ensures Shaped(run.0) && run.0.size == r.size
    decreases |accesses|
  {
    if accesses == [] then (r, [])
    else
      AccessRefines(r, sources[0], accesses[0]);
      var (s, out) := Accessed(r, sources[0], accesses[0]);
      var (t, outs) := RunCopy(s, sources[1..], accesses[1..]);
      (t, [out] + outs)
  }

  function RunArray(value: seq<byte>, accesses: seq<Access>): (seq<byte>, seq<seq<byte>>)
    requires forall k :: 0 <= k < |accesses| ==> InBounds(accesses[k], |value|)
    decreases |accesses|
  {
    if accesses == [] then (value, [])
    else
      var (v, out) := ArrayAccessed(value, accesses[0]);
      var (w, outs) := RunArray(v, accesses[1..]);
      (w, [out] + outs)
  }

  /** A settled copy, whatever its master does meanwhile, behaves as one plain array. */
  lemma {:induction false} SettledCopyIsArray(r: Replica, sources: seq<seq<byte>>, accesses: seq<Access>)
    requires Shaped(r) && Settled(r) && |sources| == |accesses|
    requires forall k :: 0 <= k < |accesses| ==> InBounds(accesses[k], r.size)
    ensures var (t, outs) := RunCopy(r, sources, accesses);
      (t.mem[..r.size], outs) == RunArray(r.mem[..r.size], accesses)
    decreases |accesses|
  {
    hide Accessed, ArrayAccessed, Shaped, Settled;
    if accesses != [] {
      Lengths(r);
      AccessRefines(r, sources[0], accesses[0]);
      var (s, _) := Accessed(r, sources[0], accesses[0]);
      SettledCopyIsArray(s, sources[1..], accesses[1..]);
    } else {
      Lengths(r);
    }
  }

  lemma Lengths(r: Replica)
    requires Shaped(r)
    ensures r.size <= |r.mem|
  {
  }

  lemma WrittenChunk(r: Replica, offset: nat, data: seq<byte>)
    requires Shaped(r) && offset + |data| <= r.size
    ensures var c, w := Chunk(offset, |data|), WithChunk(r, offset, data);
      && |w.mem| == |r.mem| && |w.pulled| == |r.pulled| && w.master == r.master
      && w.mem[offset..offset + |data|] == data && (ChunkPulled(w, c) <==> ChunkPulled(r, c))
  {
    hide ReservedBytes, PagesOf, Marked;
  }

  lemma PulledAgain(w: Replica, source: seq<byte>, c: Chunk)
    requires |source| == |w.mem| && c.offset + c.length <= |w.pulled| <= |w.mem|
    ensures PullChunk(w, source, true, c).mem
      == if w.master || ChunkPulled(w, c) then w.mem else Overlay(w.mem, source, c)
  {
    hide Overlay, PagesOf, Marked;
  }

  /** What a lazy read of a chunk gives after it was written. */
  function ReadBack(r: Replica, offset: nat, data: seq<byte>, source: seq<byte>): seq<byte>
    requires Shaped(r) && offset + |data| <= r.size
  {
    WrittenChunk(r, offset, data);
    PullChunk(WithChunk(r, offset, data), source, true, Chunk(offset, |data|)).mem[offset..offset + |data|]
  }

  lemma ReadsWritten(r: Replica, offset: nat, data: seq<byte>, source: seq<byte>)
    requires Shaped(r) && offset + |data| <= r.size && |source| == |r.mem|
    requires r.master || ChunkPulled(r, Chunk(offset, |data|))
    ensures ReadBack(r, offset, data, source) == data
  {
    WrittenChunk(r, offset, data);
    PulledAgain(WithChunk(r, offset, data), source, Chunk(offset, |data|));
    hide WithChunk, PullChunk, ChunkPulled, Overlay, ReservedBytes;
  }

  lemma ReadsMaster(r: Replica, offset: nat, data: seq<byte>, other: byte)
    requires Shaped(r) && data != [] && offset + |data| <= r.size && other != data[0]
    requires !r.master && !ChunkPulled(r, Chunk(offset, |data|))
    ensures ReadBack(r, offset, data, seq(|r.mem|, _ => other)) != data
  {
    var c, w := Chunk(offset, |data|), WithChunk(r, offset, data);
    var source: seq<byte> := seq(|r.mem|, _ => other);
    WrittenChunk(r, offset, data);
    PulledAgain(w, source, c);
    assert Overlay(w.mem, source, c)[offset] == other;
    hide WithChunk, PullChunk, ChunkPulled, Overlay, ReservedBytes;
    assert ReadBack(r, offset, data, source)[0] == other;
  }

  /** A chunk written to a copy is what a later lazy read gives, whatever the master holds, exactly on the master
      and where the chunk counts as pulled already: writing a chunk does not itself mark it as pulled. */
  lemma ReadYourWrites(r: Replica, offset: nat, data: seq<byte>)
    requires Shaped(r) && data != [] && offset + |data| <= r.size
    ensures (forall source: seq<byte> :: |source| == |r.mem| ==> ReadBack(r, offset, data, source) == data)
       <==> r.master || ChunkPulled(r, Chunk(offset, |data|))
  {
    hide ReadBack, ChunkPulled, ReservedBytes;
    if r.master || ChunkPulled(r, Chunk(offset, |data|)) {
      forall source: seq<byte> | |source| == |r.mem| ensures ReadBack(r, offset, data, source) == data {
        ReadsWritten(r, offset, data, source);
      }
    } else {
      ReadsMaster(r, offset, data, if data[0] == 0 then 1 else 0);
    }
  }

  // -------------------------------------------------------------- lost writes

  /** A byte written to a fresh copy and read back lazily: the read gives the master's byte. */
  lemma WrittenChunkLost(source: seq<byte>)
    requires |source| == ReservedBytes(1) && 0 < |source| && source[0] == 0
    ensures var r := WithChunk(Fresh(1, false), 0, [1]);
      var read := PullChunk(r, source, true, Chunk(0, 1));
      Holds(r.mem, 1) && Holds(read.mem, 0)
  {
    var r := WithChunk(Fresh(1, false), 0, [1]);
    assert r.pulled[0] == 0 && !ChunkPulled(r, Chunk(0, 1));
    assert InChunk(0, Chunk(0, 1));
  }

  lemma NoRuns(mask: seq<byte>)
    requires forall i :: 0 <= i < |mask| ==> !On(mask, i)
    ensures DirtyRuns(mask, [])
  {
    assert forall i :: 0 <= i < |mask| ==> !InSome(i, []);
  }

  /** A value set on a fresh copy and pushed to a fresh master: the push sends nothing and gives back the master's. */
  lemma SetValueLost()
    ensures var r, m := WithValue(Fresh(1, false), [1]), Fresh(1, true);
      exists r', m' :: Shaped(r) && Shaped(m) && PushedPartial(r, m, r', m') && Holds(r.mem, 1) && Holds(r'.mem, 0)
        && Holds(m'.mem, 0)
  {
    ReservedFits(1);
    var r, m := WithValue(Fresh(1, false), [1]), Fresh(1, true);
    NoRuns(r.dirty);
    hide ReservedBytes, PagesOf, CopyAll, AllChunks;
    var r' := Cleaned(r).(mem := CopyAll(r.mem, m.mem, AllChunks(1)));
    AllChunksWithin(1);
    var m' := ServeAll(m, AllChunks(1));
    assert PushAll(m, r.mem, []) == m;
    hide ServeAll, PushAll, DirtyRuns;
    assert PushedPartial(r, m, r', m');
    WholePullAt(r.mem, m.mem, 1, 0);
  }

  predicate Holds(mem: seq<byte>, b: byte) {
    mem != [] && mem[0] == b
  }
}
