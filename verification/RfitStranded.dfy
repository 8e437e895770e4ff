/** A run in which a request is left with nobody to serve it. */
module RfitStranded {
  import opened Wrappers
  import opened Sums
  import opened RfitPool
  import opened RfitInvariants
  import opened RfitProperties
  import opened RfitRuns

  const NARROW := Func("narrow", 2)

  /** The function's one worker. */
  function Alone(deal: Option<nat>, pc: Pc): Worker {
    Worker(Some(NARROW), deal, false, {}, 0, Busy, pc, 0, 0, 0)
  }

  function Only(reqs: seq<Req>, deal: Option<nat>, pc: Pc, queue: seq<nat>, cap: int): Pool {
    Pool(reqs, [Alone(deal, pc)], map[NARROW := queue], map[NARROW := cap], [], {0})
  }

  function First(completed: nat, released: nat): seq<Req> {
    [Req(NARROW, Served, completed, released)]
  }

  lemma FirstGranted()
    ensures WithGranted(INITIAL, NARROW) == Only(First(0, 0), None, Begin, [0], 1)
  {
    assert INITIAL.reqs + [Req(NARROW, Served, 0, 0)] == First(0, 0);
    assert Queue(INITIAL, NARROW) + [0] == [0];
    assert INITIAL.workers + [NewWorker(NARROW, 0)] == [Alone(None, Begin)];
  }

  lemma FirstFetched()
    ensures Takes(Only(First(0, 0), None, Finding, [0], 1), Find(0, 0), Only(First(0, 0), Some(0), Running, [], 1))
  {
    assert Pulled([0], 1) == [0] && Elements([0]) == {0} && {0} - {0} == {};
    TakesOne(Only(First(0, 0), None, Finding, [0], 1), 0, NARROW, 0, Fetched(Some(0), {}, 1));
    hide Fetch;
  }

  lemma NothingFetched()
    ensures Takes(Only(First(1, 1), Some(0), Finding, [], 2), Find(0, 0), Only(First(1, 1), Some(0), Leaving, [], 2))
  {
    TakesNone(Only(First(1, 1), Some(0), Finding, [], 2), 0, NARROW);
    hide Fetch;
  }

  lemma FirstServed()
    ensures Takes(Only(First(0, 0), None, Begin, [0], 1), Top(0), Only(First(0, 0), None, Finding, [0], 1))
    ensures Takes(Only(First(0, 0), Some(0), Running, [], 1), Return(0), Only(First(0, 0), Some(0), Begin, [], 1))
    ensures Takes(Only(First(0, 0), Some(0), Begin, [], 1), Top(0), Only(First(0, 0), Some(0), Completing, [], 1))
  {
    hide Fetch;
  }

  lemma FirstReleased()
    ensures Takes(Only(First(0, 0), Some(0), Completing, [], 1), Complete(0),
                  Only(First(1, 0), Some(0), Releasing, [], 2))
    ensures Takes(Only(First(1, 0), Some(0), Releasing, [], 2), Release(0), Only(First(1, 1), Some(0), Finding, [], 2))
  {
    hide Fetch;
  }

  /** The worker has found the queue empty and is about to leave. */
  lemma LeavingReached()
    ensures Reached(Only(First(1, 1), Some(0), Leaving, [], 2))
  {
    hide Reached, Takes, Only;
    ReachedStart();
    assert INITIAL.idle == [] && Cap(INITIAL, NARROW) == 0;
    ReachedGranted(INITIAL, NARROW);
    FirstGranted();
    FirstServed();
    FirstFetched();
    FirstReleased();
    NothingFetched();
    ReachedNext(Only(First(0, 0), None, Begin, [0], 1), Top(0), Only(First(0, 0), None, Finding, [0], 1));
    ReachedNext(Only(First(0, 0), None, Finding, [0], 1), Find(0, 0), Only(First(0, 0), Some(0), Running, [], 1));
    ReachedNext(Only(First(0, 0), Some(0), Running, [], 1), Return(0), Only(First(0, 0), Some(0), Begin, [], 1));
    ReachedNext(Only(First(0, 0), Some(0), Begin, [], 1), Top(0), Only(First(0, 0), Some(0), Completing, [], 1));
    ReachedNext(Only(First(0, 0), Some(0), Completing, [], 1), Complete(0),
                Only(First(1, 0), Some(0), Releasing, [], 2));
    ReachedNext(Only(First(1, 0), Some(0), Releasing, [], 2), Release(0), Only(First(1, 1), Some(0), Finding, [], 2));
    ReachedNext(Only(First(1, 1), Some(0), Finding, [], 2), Find(0, 0), Only(First(1, 1), Some(0), Leaving, [], 2));
  }

  /** Everyone has been served as far as admission goes, yet an instance is queued, no worker is or will be attached,
      and the capacity is below zero. */
  ghost predicate Stranded(s: Pool, f: Func) {
    && Queue(s, f) != [] && Workforce(s, f) == 0 && Cap(s, f) < 0
    && forall i :: 0 <= i < |s.reqs| ==> s.reqs[i].stage == Served
  }

  lemma LeaverStrands(reqs: seq<Req>)
    requires |reqs| == 2 && reqs[0] == Req(NARROW, Served, 1, 1) && reqs[1] == Req(NARROW, Served, 0, 0)
    ensures Takes(Only(reqs, Some(0), Leaving, [1], 1), Leave(0), Only(reqs, Some(0), Parking, [1], -1))
    ensures Stranded(Only(reqs, Some(0), Parking, [1], -1), NARROW)
  {
    var s := Only(reqs, Some(0), Parking, [1], -1);
    SumZero(s.reqs, Granted(NARROW));
    SumZero(s.workers, Attached(NARROW));
  }

  /** A request has come in and was admitted meanwhile. */
  lemma MissedReached(reqs: seq<Req>)
    requires reqs == First(1, 1) + [Req(NARROW, Served, 0, 0)]
    ensures Reached(Only(reqs, Some(0), Leaving, [1], 1))
  {
    var s := Only(First(1, 1), Some(0), Leaving, [], 2);
    LeavingReached();
    hide Reached;
    ReachedAdmitted(s, NARROW);
    assert Queue(s, NARROW) + [1] == [1];
    assert WithAdmitted(s, NARROW) == Only(reqs, Some(0), Leaving, [1], 1);
  }

  /** A worker finds the queue empty, a request is queued and takes up capacity, and the worker leaves. */
  lemma LeavingStrands()
    ensures exists states, steps :: IsRun(states, steps) && Stranded(states[|states| - 1], NARROW)
  {
    var reqs := First(1, 1) + [Req(NARROW, Served, 0, 0)];
    MissedReached(reqs);
    LeaverStrands(reqs);
    hide Takes, IsRun, Stranded, Only;
    var states, steps :| RunsTo(states, steps, Only(reqs, Some(0), Leaving, [1], 1));
    var u := Only(reqs, Some(0), Parking, [1], -1);
    RunExtends(states, steps, Leave(0), u);
    assert (states + [u])[|states + [u]| - 1] == u;
  }
}
