/** A run in which the capacity of a function falls below zero although every request is served throughout. */
module RfitOverdrawn {
  import opened Wrappers
  import opened Sums
  import opened RfitPool
  import opened RfitInvariants
  import opened RfitProperties
  import opened RfitService
  import opened RfitRuns

  const WIDE := Func("wide", 4)

  function Hand(deal: Option<nat>, local: set<nat>, pc: Pc): Worker {
    Worker(Some(WIDE), deal, false, local, 0, Busy, pc, 0, 0, 0)
  }

  function Request(completed: nat, released: nat): Req {
    Req(WIDE, Served, completed, released)
  }

  /** Eight requests, the first few over, and the one after them with its own counts. */
  function Requests(over: nat, completed: nat): (reqs: seq<Req>)
    ensures |reqs| == 8
    ensures forall i: nat :: i < 8 ==>
      reqs[i] == if i < over then Request(1, 1) else if i == over then Request(completed, 0) else Request(0, 0)
  {
    seq(8, i => if i < over then Request(1, 1) else if i == over then Request(completed, 0) else Request(0, 0))
  }

  function Crew(reqs: seq<Req>, a: Worker, b: Worker, queue: seq<nat>, cap: int): Pool {
    Pool(reqs, [a, b], map[WIDE := queue], map[WIDE := cap], [], {0, 1})
  }

  // ------------------------------------------------------------ eight requests

  function Waiting(n: nat, workers: seq<Worker>, cap: int, busy: set<nat>): Pool {
    Pool(seq(n, _ => Request(0, 0)), workers, map[WIDE := seq(n, i => i)], map[WIDE := cap], [], busy)
  }

  lemma OneMore(n: nat, workers: seq<Worker>, cap: int, busy: set<nat>)
    ensures WithAdmitted(Waiting(n, workers, cap, busy), WIDE) == Waiting(n + 1, workers, cap - 1, busy)
    ensures WithGranted(Waiting(n, workers, cap, busy), WIDE)
      == Waiting(n + 1, workers + [Hand(None, {}, Begin)], cap + 3, busy + {|workers|})
  {
    assert seq(n, _ => Request(0, 0)) + [Request(0, 0)] == seq(n + 1, _ => Request(0, 0));
    assert seq(n, i => i) + [n] == seq(n + 1, i => i);
  }

  lemma ThreeMore(n: nat, workers: seq<Worker>, busy: set<nat>)
    requires Reached(Waiting(n, workers, 3, busy))
    ensures Reached(Waiting(n + 3, workers, 0, busy))
  {
    hide Reached, WithAdmitted, WithGranted;
    for k := 0 to 3
      invariant Reached(Waiting(n + k, workers, 3 - k, busy))
    {
      ReachedAdmitted(Waiting(n + k, workers, 3 - k, busy), WIDE);
      OneMore(n + k, workers, 3 - k, busy);
    }
  }

  lemma FirstGranted()
    ensures WithGranted(INITIAL, WIDE) == Waiting(1, [Hand(None, {}, Begin)], 3, {0})
  {
    assert INITIAL.reqs + [Request(0, 0)] == seq(1, _ => Request(0, 0));
    assert Queue(INITIAL, WIDE) + [0] == seq(1, i => i);
    assert INITIAL.workers + [NewWorker(WIDE, 0)] == [Hand(None, {}, Begin)];
  }

  lemma EightReached()
    ensures Reached(Crew(Requests(0, 0), Hand(None, {}, Begin), Hand(None, {}, Begin), [0, 1, 2, 3, 4, 5, 6, 7], 0))
  {
    hide Reached, WithAdmitted, WithGranted;
    var a := Hand(None, {}, Begin);
    ReachedStart();
    assert INITIAL.idle == [] && Cap(INITIAL, WIDE) == 0;
    ReachedGranted(INITIAL, WIDE);
    FirstGranted();
    ThreeMore(1, [a], {0});
    ReachedGranted(Waiting(4, [a], 0, {0}), WIDE);
    OneMore(4, [a], 0, {0});
    assert [a] + [a] == [a, a] && {0} + {1} == {0, 1};
    ThreeMore(5, [a, a], {0, 1});
    assert seq(8, _ => Request(0, 0)) == Requests(0, 0);
    assert seq(8, i => i) == [0, 1, 2, 3, 4, 5, 6, 7];
    assert Waiting(8, [a, a], 0, {0, 1}) == Crew(Requests(0, 0), a, a, [0, 1, 2, 3, 4, 5, 6, 7], 0);
  }

  // --------------------------------------------------------- one worker hoards

  /** What the first worker has in its map when it runs an instance, and what is then queued. */
  function Local(c: nat): set<nat> {
    if c == 0 then {1} else if c == 1 then {2, 3} else if c == 2 then {3, 4, 5} else {4, 5, 6, 7}
  }

  function Rest(c: nat): seq<nat> {
    if c == 0 then [2, 3, 4, 5, 6, 7] else if c == 1 then [4, 5, 6, 7] else if c == 2 then [6, 7] else []
  }

  /** The second worker is new, and has not looked for an instance yet. */
  function Round(c: nat, completed: nat, local: set<nat>, pc: Pc, cap: int): Pool {
    Crew(Requests(c, completed), Hand(Some(c), local, pc), Hand(None, {}, Begin), Rest(c), cap)
  }

  lemma FetchFirst()
    ensures var queue := [0, 1, 2, 3, 4, 5, 6, 7];
      && Choice({}, queue, 2, 0) && Fetch({}, queue, 2, 0) == Fetched(Some(0), Local(0), 2) && queue[2..] == Rest(0)
  {
    var got := Pulled([0, 1, 2, 3, 4, 5, 6, 7], 2);
    assert got == [0, 1] && Elements([0, 1]) == {0, 1} && {0, 1} - {0} == {1};
  }

  function Left(c: nat): set<nat> {
    if c == 0 then {} else if c == 1 then {3} else {4, 5}
  }

  lemma LeftOver(c: nat)
    requires c < 3
    ensures c + 1 in Local(c) && Local(c) - {c + 1} == Left(c) && |Left(c)| == c
    ensures Left(c) + {2 * c + 2, 2 * c + 3} == Local(c + 1)
  {
  }

  lemma PulledMore(c: nat)
    requires c < 3
    ensures Pulled(Rest(c), 2) == [2 * c + 2, 2 * c + 3] && Rest(c)[2..] == Rest(c + 1)
    ensures Elements([2 * c + 2, 2 * c + 3]) == {2 * c + 2, 2 * c + 3}
  {
  }

  lemma FetchMore(c: nat)
    requires c < 3
    ensures c + 1 in Local(c) && Fetch(Local(c), Rest(c), 2, c + 1) == Fetched(Some(c + 1), Local(c + 1), 2)
    ensures Rest(c)[2..] == Rest(c + 1)
  {
    LeftOver(c);
    PulledMore(c);
    hide Local, Rest, Left, Pulled, Elements;
  }

  function Fresh(pc: Pc): Pool {
    Crew(Requests(0, 0), Hand(None, {}, pc), Hand(None, {}, Begin), [0, 1, 2, 3, 4, 5, 6, 7], 0)
  }

  lemma FirstRound()
    ensures Takes(Fresh(Begin), Top(0), Fresh(Finding))
    ensures Takes(Fresh(Finding), Find(0, 0), Round(0, 0, Local(0), Running, 0))
  {
    FetchFirst();
    hide Fetch, Local, Rest, Requests, Choice;
    TakesOne(Fresh(Finding), 0, WIDE, 0, Fetched(Some(0), Local(0), 2));
    assert WithTaken(Fresh(Finding), 0, WIDE, 0, Local(0), Rest(0)) == Round(0, 0, Local(0), Running, 0);
  }

  lemma Finished(c: nat)
    requires c < 3
    ensures Takes(Round(c, 0, Local(c), Running, c), Return(0), Round(c, 0, Local(c), Begin, c))
    ensures Takes(Round(c, 0, Local(c), Begin, c), Top(0), Round(c, 0, Local(c), Completing, c))
  {
    hide Fetch, Local, Rest, Requests;
  }

  lemma Credited(c: nat)
    requires c < 3
    ensures Takes(Round(c, 0, Local(c), Completing, c), Complete(0), Round(c, 1, Local(c), Releasing, c + 1))
  {
    assert Requests(c, 0)[c := Request(1, 0)] == Requests(c, 1);
    hide Fetch, Local, Rest, Requests;
  }

  function Between(c: nat): Pool {
    Crew(Requests(c + 1, 0), Hand(Some(c), Local(c), Finding), Hand(None, {}, Begin), Rest(c), c + 1)
  }

  lemma Over(c: nat)
    requires c < 3
    ensures Takes(Round(c, 1, Local(c), Releasing, c + 1), Release(0), Between(c))
  {
    assert Requests(c, 1)[c := Request(1, 1)] == Requests(c + 1, 0);
    hide Fetch, Local, Rest, Requests;
  }

  lemma Refilled(c: nat)
    requires c < 3
    ensures Takes(Between(c), Find(0, c + 1), Round(c + 1, 0, Local(c + 1), Running, c + 1))
  {
    FetchMore(c);
    hide Fetch, Local, Rest, Requests, Takes, Choice;
    TakesOne(Between(c), 0, WIDE, c + 1, Fetched(Some(c + 1), Local(c + 1), 2));
    TakenNext(c);
  }

  lemma TakenNext(c: nat)
    requires c < 3
    ensures WithTaken(Between(c), 0, WIDE, c + 1, Local(c + 1), Rest(c + 1))
      == Round(c + 1, 0, Local(c + 1), Running, c + 1)
  {
    hide Local, Rest, Requests;
    var a := Hand(Some(c + 1), Local(c + 1), Running);
    assert Between(c).workers[0 := a] == [a, Hand(None, {}, Begin)];
  }

  lemma NextRound(c: nat)
    requires c < 3 && Reached(Round(c, 0, Local(c), Running, c))
    ensures Reached(Round(c + 1, 0, Local(c + 1), Running, c + 1))
  {
    hide Reached, Takes, Round, Between;
    Finished(c);
    Credited(c);
    Over(c);
    Refilled(c);
    ReachedNext(Round(c, 0, Local(c), Running, c), Return(0), Round(c, 0, Local(c), Begin, c));
    ReachedNext(Round(c, 0, Local(c), Begin, c), Top(0), Round(c, 0, Local(c), Completing, c));
    ReachedNext(Round(c, 0, Local(c), Completing, c), Complete(0), Round(c, 1, Local(c), Releasing, c + 1));
    ReachedNext(Round(c, 1, Local(c), Releasing, c + 1), Release(0), Between(c));
    ReachedNext(Between(c), Find(0, c + 1), Round(c + 1, 0, Local(c + 1), Running, c + 1));
  }

  /** It runs the fourth instance with four more in its map. */
  lemma HoardReached()
    ensures Reached(Round(3, 0, Local(3), Running, 3))
  {
    EightReached();
    assert Reached(Fresh(Begin));
    hide Reached, Takes, Round, Fresh;
    FirstRound();
    ReachedNext(Fresh(Begin), Top(0), Fresh(Finding));
    ReachedNext(Fresh(Finding), Find(0, 0), Round(0, 0, Local(0), Running, 0));
    NextRound(0);
    NextRound(1);
    NextRound(2);
  }

  // ------------------------------------------------------------ the other leaves

  function Last(pc: Pc, cap: int): Pool {
    Crew(Requests(3, 0), Hand(Some(3), Local(3), Running), Hand(None, {}, pc), [], cap)
  }

  lemma OtherFinds()
    ensures Takes(Last(Begin, 3), Top(1), Last(Finding, 3)) && Takes(Last(Finding, 3), Find(1, 0), Last(Leaving, 3))
    ensures Takes(Last(Leaving, 3), Leave(1), Last(Parking, -1))
  {
    hide Fetch, Local, Requests;
    TakesNone(Last(Finding, 3), 1, WIDE);
    assert Last(Leaving, 3)
      == Last(Finding, 3).(workers := Last(Finding, 3).workers[1 := Last(Finding, 3).workers[1].(pc := Leaving)]);
  }

  lemma SameLast()
    ensures Last(Begin, 3) == Round(3, 0, Local(3), Running, 3)
  {
  }

  lemma OtherReached()
    ensures Reached(Last(Leaving, 3))
  {
    SameLast();
    hide Reached, Takes, Last, Round;
    HoardReached();
    OtherFinds();
    ReachedNext(Last(Begin, 3), Top(1), Last(Finding, 3));
    ReachedNext(Last(Finding, 3), Find(1, 0), Last(Leaving, 3));
  }

  lemma BothAttached()
    ensures Workforce(Last(Leaving, 3), WIDE) == 2
  {
    var s := Last(Leaving, 3);
    hide Requests, Local;
    assert forall i: nat :: i < 8 ==> s.reqs[i].stage == Served;
    SumZero(s.reqs, Granted(WIDE));
    SumAppend([], s.workers[0], Attached(WIDE));
    SumAppend([s.workers[0]], s.workers[1], Attached(WIDE));
    assert [] + [s.workers[0]] == [s.workers[0]];
    assert [s.workers[0]] + [s.workers[1]] == s.workers;
  }

  lemma NothingStrands(states: seq<Pool>, steps: seq<Step>)
    requires RunsTo(states, steps, Last(Leaving, 3))
    ensures IsRun(states + [Last(Parking, -1)], steps + [Leave(1)])
    ensures forall m :: 0 <= m <= |steps| ==>
      !Strands((states + [Last(Parking, -1)])[m], (steps + [Leave(1)])[m], WIDE)
  {
    BothAttached();
    OtherFinds();
    hide Last, Takes, IsRun, Workforce;
    RunExtends(states, steps, Leave(1), Last(Parking, -1));
  }

  ghost predicate Overdrawn(states: seq<Pool>) {
    && states != [] && Cap(states[|states| - 1], WIDE) == -1
    && forall m :: 0 <= m < |states| ==> Attended(states[m], WIDE)
  }

  /** A worker holds its four local instances and runs a fifth when another leaves on an empty queue: every request is
      served at every moment of the run, and the capacity ends at -1. */
  lemma HoardingOverdraws()
    ensures exists states, steps :: IsRun(states, steps) && Overdrawn(states)
  {
    OtherReached();
    var states, steps :| RunsTo(states, steps, Last(Leaving, 3));
    NothingStrands(states, steps);
    var longer, more := states + [Last(Parking, -1)], steps + [Leave(1)];
    assert Cap(longer[|longer| - 1], WIDE) == -1;
    hide IsRun, Attended, Strands, Cap, Last;
    AlwaysServed(longer, more, WIDE);
    assert Overdrawn(longer);
  }
}
