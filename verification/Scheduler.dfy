/** The scheduler of one host: its ledgers, and the placement of a batch of calls on hosts. */
module Scheduling {
  import opened Wrappers
  import opened Numbers

  type Func = string
  type Host = string

  datatype Message = Message(id: nat, func: Func)

  // ------------------------------------------------------------------ ledgers

  /** The counts the scheduler keeps, with the queues they describe. A function that was never counted counts zero. */
  datatype Ledger = Ledger(
    inFlight: map<Func, int>, faaslets: map<Func, int>, functionsInFlight: int, boundExecutors: int,
    queues: map<Func, seq<Message>>, bindQueue: seq<Func>)

  function Count(counts: map<Func, int>, f: Func): int {
    if f in counts then counts[f] else 0
  }

  function Queue(l: Ledger, f: Func): seq<Message> {
    if f in l.queues then l.queues[f] else []
  }

  function DecrementAboveZero(input: int): (r: int)
    ensures r >= 0 && (input > 0 ==> r == input - 1) && (input <= 0 ==> r == 0)
  {
    if input - 1 > 0 then input - 1 else 0
  }

  /** The count of one function is one less, but not below zero; the others are as they were. */
  predicate OneLess(before: map<Func, int>, after: map<Func, int>, f: Func) {
    && (forall g :: g in before.Keys + after.Keys && g != f ==> Count(after, g) == Count(before, g))
    && Count(after, f) == if Count(before, f) > 0 then Count(before, f) - 1 else 0
  }

  function Enqueued(l: Ledger, m: Message): Ledger {
    l.(queues := l.queues[m.func := Queue(l, m.func) + [m]])
  }

  function Incremented(l: Ledger, f: Func): Ledger {
    l.(inFlight := l.inFlight[f := Count(l.inFlight, f) + 1], functionsInFlight := l.functionsInFlight + 1)
  }

  /** One faaslet more, to be bound by some executor, unless there is one per call in flight already. */
  function Scaled(l: Ledger, f: Func): Ledger {
    if Count(l.faaslets, f) < Count(l.inFlight, f) then
      l.(faaslets := l.faaslets[f := Count(l.faaslets, f) + 1],
         boundExecutors := l.boundExecutors + 1,
         bindQueue := l.bindQueue + [f])
    else l
  }

  /** A call accepted on this host. */
  function Accepted(l: Ledger, m: Message): Ledger {
    Scaled(Incremented(Enqueued(l, m), m.func), m.func)
  }

  function CallFinished(l: Ledger, f: Func): Ledger {
    l.(inFlight := l.inFlight[f := DecrementAboveZero(Count(l.inFlight, f))],
       functionsInFlight := DecrementAboveZero(l.functionsInFlight))
  }

  function FaasletFinished(l: Ledger, f: Func): Ledger {
    l.(faaslets := if Count(l.faaslets, f) > 0 then l.faaslets[f := Count(l.faaslets, f) - 1] else l.faaslets,
       boundExecutors := DecrementAboveZero(l.boundExecutors))
  }

  // ---------------------------------------------------------------- placement

  /** Where messages of a batch go: one into the local queue, or a stretch of them to another host. */
  datatype Dispatch = Local(index: nat) | Remote(host: Host, first: nat, count: nat)

  predicate Covers(d: Dispatch, i: nat) {
    match d
    case Local(index) => index == i
    case Remote(_, first, count) => first <= i < first + count
  }

  /** How often a message is dispatched. */
  function Times(log: seq<Dispatch>, i: nat): nat {
    if log == [] then 0 else (if Covers(log[0], i) then 1 else 0) + Times(log[1..], i)
  }

  ghost predicate ExactlyOnce(log: seq<Dispatch>, nMessages: nat) {
    forall i: nat :: Times(log, i) == if i < nMessages then 1 else 0
  }

  /** A remote host with the free cores it reports; what it reports may be negative. */
  datatype Peer = Peer(host: Host, free: int)

  /** How much of what lies from `offset` on goes to a host. */
  function Share(peer: Peer, nMessages: nat, offset: nat): (share: nat)
    requires offset <= nMessages
    ensures share <= nMessages - offset
    ensures share > 0 ==> share <= peer.free
  {
    if peer.free <= 0 then 0 else Min(peer.free, nMessages - offset)
  }

  function Locals(from: nat, end: nat): (log: seq<Dispatch>)
    decreases end - from
  {
    if from >= end then [] else [Local(from)] + Locals(from + 1, end)
  }

  function Sent(peer: Peer, first: nat, share: nat): seq<Dispatch> {
    if share > 0 then [Remote(peer.host, first, share)] else []
  }

  /** What is sent to the hosts in the order they are visited, until nothing remains. As written the next message
      index stays where it is after each host; `advance` moves it past the host's share. */
  datatype Distribution = Distribution(log: seq<Dispatch>, next: nat, remainder: int)

  function Distribute(peers: seq<Peer>, nMessages: nat, next: nat, remainder: int, advance: bool): (d: Distribution)
    requires next <= nMessages
    ensures next <= d.next <= nMessages
    decreases |peers|
  {
    if peers == [] || remainder <= 0 then Distribution([], next, remainder)
    else
      var share := Share(peers[0], nMessages, next);
      var rest := Distribute(peers[1..], nMessages, if advance then next + share else next, remainder - share, advance);
      Distribution(Sent(peers[0], next, share) + rest.log, rest.next, rest.remainder)
  }

  /** Everything a batch leads to on its master host, `nLocally` being the cores free there. */
  function Placement(nMessages: nat, nLocally: nat, peers: seq<Peer>, advance: bool): seq<Dispatch>
    requires nLocally <= nMessages
  {
    var d := Distribute(peers, nMessages, nLocally, nMessages - nLocally, advance);
    Locals(0, nLocally) + d.log + if d.remainder > 0 then Locals(d.next, nMessages) else []
  }

  /** The ledger after the local part of some dispatches. */
  function AcceptedLog(l: Ledger, req: seq<Message>, log: seq<Dispatch>): Ledger
    decreases |log|
  {
    if log == [] then l
    else
      var d := log[0];
      AcceptedLog(if d.Local? && d.index < |req| then Accepted(l, req[d.index]) else l, req, log[1..])
  }

  lemma {:induction false} AcceptedLogConcat(l: Ledger, req: seq<Message>, a: seq<Dispatch>, b: seq<Dispatch>)
    ensures AcceptedLog(l, req, a + b) == AcceptedLog(AcceptedLog(l, req, a), req, b)
    decreases |a|
  {
    hide Accepted;
    if a == [] {
      assert a + b == b;
    } else {
      var d := a[0];
      assert (a + b)[0] == d && (a + b)[1..] == a[1..] + b;
      AcceptedLogConcat(if d.Local? && d.index < |req| then Accepted(l, req[d.index]) else l, req, a[1..], b);
    }
  }

  lemma NextLocal(l: Ledger, req: seq<Message>, next: nat, end: nat)
    requires next < end <= |req|
    ensures Locals(next, end) == [Local(next)] + Locals(next + 1, end)
    ensures AcceptedLog(l, req, Locals(next, end))
      == AcceptedLog(Accepted(l, req[next]), req, Locals(next + 1, end))
  {
    hide Accepted;
    assert Locals(next, end)[1..] == Locals(next + 1, end);
  }

  lemma NoLocals(l: Ledger, req: seq<Message>, end: nat)
    ensures Locals(end, end) == [] && AcceptedLog(l, req, []) == l
  {
  }

  /** The host recorded for a message: that of the last dispatch that covers it. */
  function Recorded(log: seq<Dispatch>, i: nat, thisHost: Host, before: Option<Host>): Option<Host>
    decreases |log|
  {
    if log == [] then before
    else
      var now := if !Covers(log[0], i) then before else if log[0].Local? then Some(thisHost) else Some(log[0].host);
      Recorded(log[1..], i, thisHost, now)
  }

  lemma {:induction false} RecordedConcat(
    a: seq<Dispatch>, b: seq<Dispatch>, i: nat, thisHost: Host, before: Option<Host>)
    ensures Recorded(a + b, i, thisHost, before) == Recorded(b, i, thisHost, Recorded(a, i, thisHost, before))
    decreases |a|
  {
    if a == [] {
      assert a + b == b;
    } else {
      assert (a + b)[0] == a[0] && (a + b)[1..] == a[1..] + b;
      var now := if !Covers(a[0], i) then before else if a[0].Local? then Some(thisHost) else Some(a[0].host);
      RecordedConcat(a[1..], b, i, thisHost, now);
    }
  }

  lemma {:induction false} RecordedLocals(from: nat, end: nat, i: nat, thisHost: Host, before: Option<Host>)
    ensures Recorded(Locals(from, end), i, thisHost, before) == if from <= i < end then Some(thisHost) else before
    decreases end - from
  {
    if from < end {
      var now := if from == i then Some(thisHost) else before;
      assert Locals(from, end)[1..] == Locals(from + 1, end);
      RecordedLocals(from + 1, end, i, thisHost, now);
    }
  }

  lemma RecordedSent(peer: Peer, first: nat, share: nat, i: nat, thisHost: Host, before: Option<Host>)
    ensures Recorded(Sent(peer, first, share), i, thisHost, before)
         == if first <= i < first + share then Some(peer.host) else before
  {
    if share > 0 {
      assert Sent(peer, first, share)[1..] == [];
    }
  }

  function HostOf(d: Dispatch, thisHost: Host): Host {
    if d.Local? then thisHost else d.host
  }

  predicate LastCovering(log: seq<Dispatch>, k: nat, i: nat) {
    k < |log| && Covers(log[k], i) && forall j :: k < j < |log| ==> !Covers(log[j], i)
  }

  /** The record of a message is the host of the last dispatch that covers it: this one for a local dispatch, the one
      it was sent to for another; where none does, it is what it was. */
  lemma {:induction false} RecordedLast(log: seq<Dispatch>, k: nat, i: nat, thisHost: Host, before: Option<Host>)
    ensures LastCovering(log, k, i) ==> Recorded(log, i, thisHost, before) == Some(HostOf(log[k], thisHost))
    ensures (forall j :: 0 <= j < |log| ==> !Covers(log[j], i)) ==> Recorded(log, i, thisHost, before) == before
    decreases |log|
  {
    if log != [] {
      hide Covers;
      var now := if !Covers(log[0], i) then before else Some(HostOf(log[0], thisHost));
      RecordedLast(log[1..], if k > 0 then k - 1 else 0, i, thisHost, now);
    }
  }

  /** Every record of a batch is such a host. */
  predicate Hosted(executed: seq<Option<Host>>, log: seq<Dispatch>, thisHost: Host) {
    forall i, k :: 0 <= i < |executed| && 0 <= k < |log| && LastCovering(log, k, i) ==>
      executed[i] == Some(HostOf(log[k], thisHost))
  }

  lemma RecordsHosted(records: seq<Option<Host>>, log: seq<Dispatch>, thisHost: Host, before: seq<Option<Host>>)
    requires RecordsOf(records, log, thisHost, before)
    ensures Hosted(records, log, thisHost)
  {
    hide Recorded, LastCovering;
    forall i, k | 0 <= i < |records| && 0 <= k < |log| && LastCovering(log, k, i)
      ensures records[i] == Some(HostOf(log[k], thisHost))
    {
      RecordedLast(log, k, i, thisHost, before[i]);
    }
  }

  /** The hosts some dispatches go to. */
  function HostsOf(log: seq<Dispatch>): set<Host> {
    set d | d in log && d.Remote? :: d.host
  }

  predicate RecordsOf(records: seq<Option<Host>>, log: seq<Dispatch>, thisHost: Host, before: seq<Option<Host>>) {
    && |records| == |before|
    && forall i :: 0 <= i < |records| ==> records[i] == Recorded(log, i, thisHost, before[i])
  }

  lemma RecordsConcat(
    a: seq<Dispatch>, b: seq<Dispatch>, thisHost: Host,
    before: seq<Option<Host>>, mid: seq<Option<Host>>, after: seq<Option<Host>>)
    requires RecordsOf(mid, a, thisHost, before) && RecordsOf(after, b, thisHost, mid)
    ensures RecordsOf(after, a + b, thisHost, before)
  {
    forall i | 0 <= i < |after| ensures after[i] == Recorded(a + b, i, thisHost, before[i]) {
      RecordedConcat(a, b, i, thisHost, before[i]);
    }
  }

  function Registered(hosts: map<Func, set<Host>>, f: Func): set<Host> {
    if f in hosts then hosts[f] else {}
  }

  /** Some hosts are registered for a function, besides those that were, and none for any other. */
  ghost predicate Registers(before: map<Func, set<Host>>, after: map<Func, set<Host>>, f: Func, hosts: set<Host>) {
    forall g :: Registered(after, g) == Registered(before, g) + if g == f then hosts else {}
  }

  lemma RegistersNone(before: map<Func, set<Host>>, f: Func)
    ensures Registers(before, before, f, {})
  {
  }

  lemma RegistersMore(
    before: map<Func, set<Host>>, mid: map<Func, set<Host>>, after: map<Func, set<Host>>, f: Func, a: set<Host>,
    b: set<Host>)
    requires Registers(before, mid, f, a) && Registers(mid, after, f, b)
    ensures Registers(before, after, f, a + b)
  {
    forall g ensures Registered(after, g) == Registered(before, g) + if g == f then a + b else {} {
      assert Registered(mid, g) == Registered(before, g) + if g == f then a else {};
    }
  }

  // -------------------------------------------------------------- the class

  class Scheduler {
    const thisHost: Host
    var cores: int
    var ledger: Ledger
    var registeredHosts: map<Func, set<Host>>

    constructor (host: Host, usableCores: int)
      ensures thisHost == host && cores == usableCores
      ensures ledger == Ledger(map[], map[], 0, 0, map[], []) && registeredHosts == map[]
    {
      thisHost, cores := host, usableCores;
      ledger := Ledger(map[], map[], 0, 0, map[], []);
      registeredHosts := map[];
    }

    method Enqueue(m: Message)
      modifies this`ledger
      ensures ledger == Enqueued(old(ledger), m)
    {
      var queue := Queue(ledger, m.func) + [m];
      ledger := ledger.(queues := ledger.queues[m.func := queue]);
    }

    method IncrementInFlightCount(f: Func)
      modifies this`ledger
      ensures ledger == Incremented(old(ledger), f)
    {
      ledger := ledger.(inFlight := ledger.inFlight[f := Count(ledger.inFlight, f) + 1]);
      ledger := ledger.(functionsInFlight := ledger.functionsInFlight + 1);
    }

    method AddFaaslets(f: Func)
      modifies this`ledger
      ensures ledger == Scaled(old(ledger), f)
    {
      var nFaaslets := Count(ledger.faaslets, f);
      var inFlightCount := Count(ledger.inFlight, f);
      var needToScale := nFaaslets < inFlightCount;
      if needToScale {
        ledger := ledger.(faaslets := ledger.faaslets[f := nFaaslets + 1]);
        ledger := ledger.(boundExecutors := ledger.boundExecutors + 1);
        ledger := ledger.(bindQueue := ledger.bindQueue + [f]);
      }
    }

    method ExecuteLocally(m: Message)
      modifies this`ledger
      ensures ledger == Accepted(old(ledger), m)
    {
      Enqueue(m);
      IncrementInFlightCount(m.func);
      AddFaaslets(m.func);
    }

    method NotifyCallFinished(f: Func)
      modifies this`ledger
      ensures ledger == CallFinished(old(ledger), f)
      ensures OneLess(old(ledger).inFlight, ledger.inFlight, f)
      ensures old(ledger).functionsInFlight > 0 ==> ledger.functionsInFlight == old(ledger).functionsInFlight - 1
      ensures old(ledger).functionsInFlight <= 0 ==> ledger.functionsInFlight == 0
    {
      var newCount := DecrementAboveZero(Count(ledger.inFlight, f));
      ledger := ledger.(inFlight := ledger.inFlight[f := newCount]);
      ledger := ledger.(functionsInFlight := DecrementAboveZero(ledger.functionsInFlight));
    }

    method NotifyFaasletFinished(f: Func)
      modifies this`ledger
      ensures ledger == FaasletFinished(old(ledger), f)
      ensures Count(old(ledger).faaslets, f) >= 0 ==> OneLess(old(ledger).faaslets, ledger.faaslets, f)
      ensures old(ledger).boundExecutors > 0 ==> ledger.boundExecutors == old(ledger).boundExecutors - 1
      ensures old(ledger).boundExecutors <= 0 ==> ledger.boundExecutors == 0
    {
      var oldCount := Count(ledger.faaslets, f);
      if oldCount > 0 {
        ledger := ledger.(faaslets := ledger.faaslets[f := oldCount - 1]);
      }
      ledger := ledger.(boundExecutors := DecrementAboveZero(ledger.boundExecutors));
    }

    /** The messages from one index to another, executed here. */
    method ExecuteRange(req: seq<Message>, from: nat, end: nat, executed: seq<Option<Host>>)
      returns (log: seq<Dispatch>, records: seq<Option<Host>>)
      requires from <= end <= |req| == |executed|
      modifies this`ledger
      ensures log == Locals(from, end)
      ensures ledger == AcceptedLog(old(ledger), req, log)
      ensures RecordsOf(records, log, thisHost, executed)
    {
      hide Accepted, AcceptedLog, Locals;
      log, records := [], executed;
      var nextMsgIdx := from;
      assert log + Locals(from, end) == Locals(from, end);
      while nextMsgIdx < end
        invariant from <= nextMsgIdx <= end
        invariant log + Locals(nextMsgIdx, end) == Locals(from, end)
        invariant AcceptedLog(old(ledger), req, Locals(from, end)) == AcceptedLog(ledger, req, Locals(nextMsgIdx, end))
        invariant |records| == |executed|
        invariant forall i :: 0 <= i < |records| ==>
          records[i] == if from <= i < nextMsgIdx then Some(thisHost) else executed[i]
      {
        NextLocal(ledger, req, nextMsgIdx, end);
        assert log + ([Local(nextMsgIdx)] + Locals(nextMsgIdx + 1, end))
          == log + [Local(nextMsgIdx)] + Locals(nextMsgIdx + 1, end);
        ExecuteLocally(req[nextMsgIdx]);
        records := records[nextMsgIdx := Some(thisHost)];
        log := log + [Local(nextMsgIdx)];
        nextMsgIdx := nextMsgIdx + 1;
      }
      NoLocals(ledger, req, end);
      assert log + [] == log;
      forall i | 0 <= i < |records| ensures records[i] == Recorded(log, i, thisHost, executed[i]) {
        RecordedLocals(from, end, i, thisHost, executed[i]);
      }
    }

    /** As many as the host has free cores for, from the given offset on. */
    method ScheduleFunctionsOnHost(peer: Peer, req: seq<Message>, records: seq<Option<Host>>, offset: nat)
      returns (nOnThisHost: nat, log: seq<Dispatch>, updated: seq<Option<Host>>)
      requires offset <= |req| == |records|
      ensures nOnThisHost == Share(peer, |req|, offset)
      ensures log == Sent(peer, offset, nOnThisHost)
      ensures RecordsOf(updated, log, thisHost, records)
      ensures |updated| == |records| && forall i :: 0 <= i < |updated| ==>
        updated[i] == if offset <= i < offset + nOnThisHost then Some(peer.host) else records[i]
    {
      updated := records;
      var remainder := |req| - offset;
      var available := peer.free;
      if available <= 0 {
        return 0, [], records;
      }
      nOnThisHost := Min(available, remainder);
      var i := offset;
      while i < offset + nOnThisHost
        invariant offset <= i <= offset + nOnThisHost && |updated| == |records|
        invariant forall k :: 0 <= k < |records| ==>
          updated[k] == if offset <= k < i then Some(peer.host) else records[k]
      {
        updated := updated[i := Some(peer.host)];
        i := i + 1;
      }
      log := Sent(peer, offset, nOnThisHost);
      forall i | 0 <= i < |records| ensures updated[i] == Recorded(log, i, thisHost, records[i]) {
        RecordedSent(peer, offset, nOnThisHost, i, thisHost, records[i]);
      }
    }

    /** One host's turn; it is registered for the function once it has been given work. */
    method DistributeToHost(f: Func, peer: Peer, req: seq<Message>, records: seq<Option<Host>>, next: nat)
      returns (nOnThisHost: nat, sent: seq<Dispatch>, updated: seq<Option<Host>>)
      requires next <= |req| == |records|
      modifies this`registeredHosts
      ensures nOnThisHost == Share(peer, |req|, next) && sent == Sent(peer, next, nOnThisHost)
      ensures RecordsOf(updated, sent, thisHost, records)
      ensures Registers(old(registeredHosts), registeredHosts, f, HostsOf(sent))
    {
      nOnThisHost, sent, updated := ScheduleFunctionsOnHost(peer, req, records, next);
      SentHosts(peer, next, nOnThisHost);
      if nOnThisHost > 0 {
        registeredHosts := registeredHosts[f := Registered(registeredHosts, f) + {peer.host}];
      }
    }

    /** Both loops over hosts: those registered for the function, then the other available ones. */
    method DistributeRemainder(f: Func, peers: seq<Peer>, req: seq<Message>, records: seq<Option<Host>>, next: nat)
      returns (log: seq<Dispatch>, updated: seq<Option<Host>>, remainder: int)
      requires next <= |req| == |records|
      modifies this`registeredHosts
      ensures Distribute(peers, |req|, next, |req| - next, false) == Distribution(log, next, remainder)
      ensures RecordsOf(updated, log, thisHost, records)
      ensures Registers(old(registeredHosts), registeredHosts, f, HostsOf(log))
    {
      ghost var whole := Distribute(peers, |req|, next, |req| - next, false);
      log, updated, remainder := [], records, |req| - next;
      RecordsNone(thisHost, records);
      DistributeBegins(peers, |req|, next, remainder);
      RegistersNone(registeredHosts, f);
      hide RecordsOf, HostsOf, Share, Sent, Distribute, Remains, Registers;
      var k := 0;
      while k < |peers| && remainder > 0
        invariant 0 <= k <= |peers| && |updated| == |req|
        invariant Remains(whole, peers, k, |req|, next, remainder, log)
        invariant RecordsOf(updated, log, thisHost, records)
        invariant Registers(old(registeredHosts), registeredHosts, f, HostsOf(log))
      {
        var nOnThisHost, sent, records';
        ghost var before := registeredHosts;
        nOnThisHost, sent, records' := DistributeToHost(f, peers[k], req, updated, next);
        DistributeStep(whole, peers, k, |req|, next, remainder, log);
        RecordsConcat(log, sent, thisHost, records, updated, records');
        HostsAppended(log, sent);
        RegistersMore(old(registeredHosts), before, registeredHosts, f, HostsOf(log), HostsOf(sent));
        updated, remainder, log := records', remainder - nOnThisHost, log + sent;
        k := k + 1;
      }
      DistributeEnds(whole, peers, k, |req|, next, remainder, log);
    }

    /** The batch on its master host: what fits here, then the other hosts, then here again. */
    method PlaceBatch(req: seq<Message>, nLocally: nat, peers: seq<Peer>)
      returns (executed: seq<Option<Host>>, log: seq<Dispatch>)
      requires req != [] && nLocally <= |req|
      modifies this`ledger, this`registeredHosts
      ensures log == Placement(|req|, nLocally, peers, false)
      ensures ledger == AcceptedLog(old(ledger), req, log)
      ensures RecordsOf(executed, log, thisHost, Blank(|req|))
      ensures Registers(old(registeredHosts), registeredHosts, req[0].func, HostsOf(log))
    {
      hide RecordsOf, AcceptedLog, HostsOf, Distribute, Registers;
      var here, sent, remainder, updated;
      here, executed := ExecuteRange(req, 0, nLocally, Blank(|req|));
      RecordsLength(executed, here, thisHost, Blank(|req|));
      LocalsStayHere(0, nLocally);
      sent, updated, remainder := DistributeRemainder(req[0].func, peers, req, executed, nLocally);
      RecordsConcat(here, sent, thisHost, Blank(|req|), executed, updated);
      RecordsLength(updated, here + sent, thisHost, Blank(|req|));
      AcceptedLogConcat(old(ledger), req, here, sent);
      DistributeAccepts(ledger, req, peers, nLocally, |req| - nLocally);
      HostsAppended(here, sent);
      assert HostsOf(here + sent) == HostsOf(sent);
      executed, log := updated, here + sent;
      if remainder > 0 {
        var rest;
        rest, updated := ExecuteRange(req, nLocally, |req|, executed);
        RecordsConcat(log, rest, thisHost, Blank(|req|), executed, updated);
        AcceptedLogConcat(old(ledger), req, log, rest);
        LocalsStayHere(nLocally, |req|);
        HostsAppended(log, rest);
        assert HostsOf(log + rest) == HostsOf(log);
        executed, log := updated, log + rest;
      } else {
        assert here + sent + [] == here + sent;
      }
    }

    /** A FUNCTIONS batch on its master host, or one that must stay local. The peers are the other hosts with what
        they report, registered ones first. */
    method CallFunctions(req: seq<Message>, forceLocal: bool, peers: seq<Peer>)
      returns (executed: seq<Option<Host>>, log: seq<Dispatch>)
      requires req != [] && forall i :: 0 <= i < |req| ==> req[i].func == req[0].func
      modifies this`ledger, this`registeredHosts
      ensures var free := if cores > old(ledger).functionsInFlight then cores - old(ledger).functionsInFlight else 0;
        log == if forceLocal then Locals(0, |req|) else Placement(|req|, Min(free, |req|), peers, false)
      ensures ledger == AcceptedLog(old(ledger), req, log)
      ensures RecordsOf(executed, log, thisHost, Blank(|req|))
      ensures Registers(old(registeredHosts), registeredHosts, req[0].func, HostsOf(log))
      ensures Hosted(executed, log, thisHost)
      ensures var free := if cores > old(ledger).functionsInFlight then cores - old(ledger).functionsInFlight else 0;
        var nLocally := if forceLocal then |req| else Min(free, |req|);
        && (nLocally == |req| || FirstWithRoomTakesAll(peers, |req| - nLocally) ==>
              executed == Hosts(|req|, nLocally, peers, thisHost))
        && Queue(ledger, req[0].func)
           == Queue(old(ledger), req[0].func) + (if SomeLeft(|req|, nLocally, peers) then req else req[..nLocally])
        && old(ledger).bindQueue <= ledger.bindQueue
    {
      hide RecordsOf, AcceptedLog, HostsOf, Distribute, Registers, Placement, Accepted;
      if forceLocal {
        log, executed := ExecuteRange(req, 0, |req|, Blank(|req|));
        LocalsStayHere(0, |req|);
        RegistersNone(registeredHosts, req[0].func);
        BatchPlaced(old(ledger), req, |req|, peers, executed, log, thisHost);
        return;
      }
      var available := cores - ledger.functionsInFlight;
      if available < 0 {
        available := 0;
      }
      executed, log := PlaceBatch(req, Min(available, |req|), peers);
      BatchPlaced(old(ledger), req, Min(available, |req|), peers, executed, log, thisHost);
    }
  }

  function Blank(n: nat): (records: seq<Option<Host>>)
    ensures |records| == n
  {
    seq(n, _ => None)
  }

  lemma {:induction false} NotCovered(log: seq<Dispatch>, k: nat, i: nat)
    requires Times(log, i) == 0 && k < |log|
    ensures !Covers(log[k], i)
  {
    if k > 0 {
      NotCovered(log[1..], k - 1, i);
    }
  }

  /** Dispatched once, a message has one dispatch that covers it, and that is the last one. */
  lemma {:induction false} OnceIsLast(log: seq<Dispatch>, k: nat, i: nat)
    requires Times(log, i) == 1 && k < |log| && Covers(log[k], i)
    ensures LastCovering(log, k, i)
  {
    hide Covers;
    if k == 0 {
      forall j | 0 < j < |log| ensures !Covers(log[j], i) {
        NotCovered(log[1..], j - 1, i);
      }
    } else {
      if Covers(log[0], i) {
        NotCovered(log[1..], k - 1, i);
      }
      OnceIsLast(log[1..], k - 1, i);
    }
  }

  /** So in a batch that is dispatched exactly once each message is recorded on the host it was dispatched to. */
  lemma RecordedOnce(executed: seq<Option<Host>>, log: seq<Dispatch>, thisHost: Host, k: nat, i: nat)
    requires RecordsOf(executed, log, thisHost, Blank(|executed|)) && ExactlyOnce(log, |executed|)
    requires i < |executed| && k < |log| && Covers(log[k], i)
    ensures executed[i] == Some(HostOf(log[k], thisHost))
  {
    hide Covers, Recorded, LastCovering;
    OnceIsLast(log, k, i);
    RecordsHosted(executed, log, thisHost, Blank(|executed|));
  }

  /** The messages accepted here join the queue of their function in the order of the batch, behind what it holds; no
      other queue changes, and faaslets asked for earlier are bound earlier. */
  lemma {:induction false} LocalsQueued(l: Ledger, req: seq<Message>, from: nat, end: nat, f: Func, g: Func)
    requires from <= end <= |req| && forall i :: 0 <= i < |req| ==> req[i].func == f
    ensures Queue(AcceptedLog(l, req, Locals(from, end)), g)
         == Queue(l, g) + if g == f then req[from..end] else []
    ensures l.bindQueue <= AcceptedLog(l, req, Locals(from, end)).bindQueue
    decreases end - from
  {
    hide Accepted, AcceptedLog, Locals, Queue;
    if from < end {
      NextLocal(l, req, from, end);
      AcceptedQueue(l, req[from], g);
      LocalsQueued(Accepted(l, req[from]), req, from + 1, end, f, g);
      SplitFirst(Queue(l, g), req, from, end);
    } else {
      NoLocals(l, req, end);
    }
  }

  lemma SplitFirst<T>(before: seq<T>, s: seq<T>, from: nat, end: nat)
    requires from < end <= |s|
    ensures before + [s[from]] + s[from + 1..end] == before + s[from..end]
  {
  }

  lemma SplitWhole<T>(before: seq<T>, s: seq<T>, k: nat)
    requires k <= |s|
    ensures before + s[..k] + s[k..] == before + s
  {
    assert s[..k] + s[k..] == s;
  }

  lemma AcceptedQueue(l: Ledger, m: Message, g: Func)
    ensures Queue(Accepted(l, m), g) == Queue(l, g) + if g == m.func then [m] else []
    ensures l.bindQueue <= Accepted(l, m).bindQueue
  {
  }

  /** As written the index does not move. */
  lemma {:induction false} IndexStays(peers: seq<Peer>, nMessages: nat, next: nat, remainder: int)
    requires next <= nMessages
    ensures Distribute(peers, nMessages, next, remainder, false).next == next
    decreases |peers|
  {
    if peers != [] && remainder > 0 {
      IndexStays(peers[1..], nMessages, next, remainder - Share(peers[0], nMessages, next));
    }
  }

  /** Whether the other hosts leave any of a batch. */
  predicate SomeLeft(nMessages: nat, nLocally: nat, peers: seq<Peer>)
    requires nLocally <= nMessages
  {
    Distribute(peers, nMessages, nLocally, nMessages - nLocally, false).remainder > 0
  }

  /** A batch leaves its first messages in the queue, in order, and all after them too if the other hosts leave any. */
  lemma PlacementQueued(l: Ledger, req: seq<Message>, nLocally: nat, peers: seq<Peer>, f: Func)
    requires nLocally <= |req| && forall i :: 0 <= i < |req| ==> req[i].func == f
    ensures Queue(AcceptedLog(l, req, Placement(|req|, nLocally, peers, false)), f)
         == Queue(l, f) + if SomeLeft(|req|, nLocally, peers) then req else req[..nLocally]
    ensures l.bindQueue <= AcceptedLog(l, req, Placement(|req|, nLocally, peers, false)).bindQueue
  {
    hide Accepted, AcceptedLog, Locals, Queue, Distribute;
    var d := Distribute(peers, |req|, nLocally, |req| - nLocally, false);
    var here := AcceptedLog(l, req, Locals(0, nLocally));
    IndexStays(peers, |req|, nLocally, |req| - nLocally);
    DistributeAccepts(here, req, peers, nLocally, |req| - nLocally);
    AcceptedLogConcat(l, req, Locals(0, nLocally), d.log);
    LocalsQueued(l, req, 0, nLocally, f, f);
    assert req[0..nLocally] == req[..nLocally];
    if d.remainder > 0 {
      AcceptedLogConcat(l, req, Locals(0, nLocally) + d.log, Locals(nLocally, |req|));
      LocalsQueued(here, req, nLocally, |req|, f, f);
      SplitWhole(Queue(l, f), req, nLocally);
      assert req[nLocally..|req|] == req[nLocally..];
    } else {
      assert Locals(0, nLocally) + d.log + [] == Locals(0, nLocally) + d.log;
    }
  }

  lemma RecordsLength(records: seq<Option<Host>>, log: seq<Dispatch>, thisHost: Host, before: seq<Option<Host>>)
    requires RecordsOf(records, log, thisHost, before)
    ensures |records| == |before|
  {
  }

  /** A host is one of those exactly if something was sent to it. */
  lemma HostsExact(log: seq<Dispatch>, h: Host)
    ensures h in HostsOf(log) <==> exists k :: 0 <= k < |log| && log[k].Remote? && log[k].host == h
  {
    if h in HostsOf(log) {
      var d :| d in log && d.Remote? && d.host == h;
      var k :| 0 <= k < |log| && log[k] == d;
    }
  }

  /** No larger share would fit both what remains and the free cores. */
  lemma ShareMost(peer: Peer, nMessages: nat, offset: nat, n: nat)
    requires offset <= nMessages && n <= nMessages - offset && n <= peer.free
    ensures n <= Share(peer, nMessages, offset)
  {
  }

  lemma SentHosts(peer: Peer, first: nat, share: nat)
    ensures HostsOf(Sent(peer, first, share)) == if share > 0 then {peer.host} else {}
  {
    if share > 0 {
      assert Sent(peer, first, share)[0].Remote?;
    }
  }

  lemma RecordsNone(thisHost: Host, records: seq<Option<Host>>)
    ensures RecordsOf(records, [], thisHost, records)
  {
  }

  lemma HostsAppended(a: seq<Dispatch>, b: seq<Dispatch>)
    ensures HostsOf(a + b) == HostsOf(a) + HostsOf(b)
  {
  }

  lemma {:induction false} LocalsStayHere(from: nat, end: nat)
    ensures HostsOf(Locals(from, end)) == {}
    decreases end - from
  {
    if from < end {
      LocalsStayHere(from + 1, end);
      HostsAppended([Local(from)], Locals(from + 1, end));
    }
  }

  lemma SentAccepts(l: Ledger, req: seq<Message>, peer: Peer, first: nat, share: nat, rest: seq<Dispatch>)
    ensures AcceptedLog(l, req, Sent(peer, first, share) + rest) == AcceptedLog(l, req, rest)
  {
    hide Accepted;
    var sent := Sent(peer, first, share);
    if share > 0 {
      assert (sent + rest)[1..] == rest;
    } else {
      assert sent + rest == rest;
    }
  }

  /** Sending work away accepts nothing here. */
  lemma {:induction false} DistributeAccepts(
    l: Ledger, req: seq<Message>, peers: seq<Peer>, next: nat, remainder: int)
    requires next <= |req|
    ensures AcceptedLog(l, req, Distribute(peers, |req|, next, remainder, false).log) == l
    decreases |peers|
  {
    hide Accepted, Share, Sent;
    if peers != [] && remainder > 0 {
      var share := Share(peers[0], |req|, next);
      var rest := Distribute(peers[1..], |req|, next, remainder - share, false).log;
      DistributeAccepts(l, req, peers[1..], next, remainder - share);
      hide AcceptedLog;
      SentAccepts(l, req, peers[0], next, share, rest);
    }
  }

  /** A distribution of which some is done and the rest is what the hosts from one on get. */
  predicate Remains(
    whole: Distribution, peers: seq<Peer>, k: nat, nMessages: nat, next: nat, remainder: int, log: seq<Dispatch>)
    requires k <= |peers| && next <= nMessages
  {
    var rest := Distribute(peers[k..], nMessages, next, remainder, false);
    whole == Distribution(log + rest.log, rest.next, rest.remainder)
  }

  lemma DistributeBegins(peers: seq<Peer>, nMessages: nat, next: nat, remainder: int)
    requires next <= nMessages
    ensures HostsOf([]) == {}
    ensures Remains(Distribute(peers, nMessages, next, remainder, false), peers, 0, nMessages, next, remainder, [])
  {
    assert peers[0..] == peers;
    var whole := Distribute(peers, nMessages, next, remainder, false);
    assert [] + whole.log == whole.log;
  }

  lemma DistributeStep(
    whole: Distribution, peers: seq<Peer>, k: nat, nMessages: nat, next: nat, remainder: int, log: seq<Dispatch>)
    requires k < |peers| && next <= nMessages && remainder > 0
    requires Remains(whole, peers, k, nMessages, next, remainder, log)
    ensures var share := Share(peers[k], nMessages, next);
      Remains(whole, peers, k + 1, nMessages, next, remainder - share, log + Sent(peers[k], next, share))
  {
    hide Share, Sent;
    var share := Share(peers[k], nMessages, next);
    assert peers[k..][1..] == peers[k + 1..];
    var later := Distribute(peers[k + 1..], nMessages, next, remainder - share, false);
    assert log + (Sent(peers[k], next, share) + later.log) == log + Sent(peers[k], next, share) + later.log;
  }

  lemma DistributeEnds(
    whole: Distribution, peers: seq<Peer>, k: nat, nMessages: nat, next: nat, remainder: int, log: seq<Dispatch>)
    requires k <= |peers| && next <= nMessages && (k == |peers| || remainder <= 0)
    requires Remains(whole, peers, k, nMessages, next, remainder, log)
    ensures whole == Distribution(log, next, remainder)
  {
    assert log + [] == log;
  }

  // ------------------------------------------------------- placement, proved

  lemma {:induction false} TimesConcat(a: seq<Dispatch>, b: seq<Dispatch>, i: nat)
    ensures Times(a + b, i) == Times(a, i) + Times(b, i)
  {
    if a == [] {
      assert a + b == b;
    } else {
      assert (a + b)[0] == a[0] && (a + b)[1..] == a[1..] + b;
      TimesConcat(a[1..], b, i);
    }
  }

  lemma {:induction false} LocalsTimes(from: nat, end: nat, i: nat)
    ensures Times(Locals(from, end), i) == (if from <= i < end then 1 else 0)
    decreases end - from
  {
    if from < end {
      assert Locals(from, end)[1..] == Locals(from + 1, end);
      LocalsTimes(from + 1, end, i);
    }
  }

  lemma PlacementTimes(nMessages: nat, nLocally: nat, peers: seq<Peer>, advance: bool, i: nat)
    requires nLocally <= nMessages
    ensures var d := Distribute(peers, nMessages, nLocally, nMessages - nLocally, advance);
      Times(Placement(nMessages, nLocally, peers, advance), i)
      == (if i < nLocally then 1 else 0) + Times(d.log, i)
         + if d.remainder > 0 && d.next <= i < nMessages then 1 else 0
  {
    var d := Distribute(peers, nMessages, nLocally, nMessages - nLocally, advance);
    var last := if d.remainder > 0 then Locals(d.next, nMessages) else [];
    LocalsTimes(0, nLocally, i);
    LocalsTimes(d.next, nMessages, i);
    TimesConcat(Locals(0, nLocally), d.log, i);
    TimesConcat(Locals(0, nLocally) + d.log, last, i);
  }

  lemma SentTimes(peer: Peer, first: nat, share: nat, i: nat)
    ensures Times(Sent(peer, first, share), i) == if first <= i < first + share then 1 else 0
  {
    if share > 0 {
      var d := Remote(peer.host, first, share);
      assert Times([d], i) == (if Covers(d, i) then 1 else 0) + Times([], i);
    }
  }

  /** The index moved past each share, what the hosts get is exactly what lies between the two indices. */
  lemma {:induction false} AdvancingTimes(peers: seq<Peer>, nMessages: nat, next: nat, i: nat)
    requires next <= nMessages
    ensures var d := Distribute(peers, nMessages, next, nMessages - next, true);
      && d.remainder == nMessages - d.next
      && Times(d.log, i) == if next <= i < d.next then 1 else 0
    decreases |peers|
  {
    hide Covers, Sent;
    if peers != [] && nMessages - next > 0 {
      var share := Share(peers[0], nMessages, next);
      AdvancingTimes(peers[1..], nMessages, next + share, i);
      var rest := Distribute(peers[1..], nMessages, next + share, nMessages - next - share, true);
      var sent := Sent(peers[0], next, share);
      TimesConcat(sent, rest.log, i);
      SentTimes(peers[0], next, share, i);
    }
  }

  /** With the index advanced by each host's share every batch is dispatched exactly once. */
  lemma AdvancingPlacement(nMessages: nat, nLocally: nat, peers: seq<Peer>)
    requires nLocally <= nMessages
    ensures ExactlyOnce(Placement(nMessages, nLocally, peers, true), nMessages)
  {
    forall i: nat
      ensures Times(Placement(nMessages, nLocally, peers, true), i) == if i < nMessages then 1 else 0
    {
      PlacementTimes(nMessages, nLocally, peers, true, i);
      AdvancingTimes(peers, nMessages, nLocally, i);
    }
  }

  predicate HasRoom(peer: Peer) {
    peer.free > 0
  }

  /** The first host with room has room for everything that is left, or there is none. */
  predicate FirstWithRoomTakesAll(peers: seq<Peer>, remainder: int) {
    if peers == [] then true
    else if HasRoom(peers[0]) then peers[0].free >= remainder
    else FirstWithRoomTakesAll(peers[1..], remainder)
  }

  /** As written, the message the index stays at goes to every host that is given something, and again to the
      local queue if something remains. */
  lemma {:induction false} StuckTimes(peers: seq<Peer>, nMessages: nat, next: nat, remainder: int, i: nat)
    requires next < nMessages && 0 < remainder <= nMessages - next
    ensures var d := Distribute(peers, nMessages, next, remainder, false);
      && d.next == next
      && Times(d.log, next) + (if d.remainder > 0 then 1 else 0) >= 1
      && (remainder == nMessages - next && FirstWithRoomTakesAll(peers, remainder) ==>
            Times(d.log, i) + (if d.remainder > 0 && next <= i < nMessages then 1 else 0)
            == if next <= i < nMessages then 1 else 0)
      && (remainder == nMessages - next && !FirstWithRoomTakesAll(peers, remainder) ==>
            Times(d.log, next) + (if d.remainder > 0 then 1 else 0) >= 2)
    decreases |peers|
  {
    hide Covers, Sent;
    if peers != [] {
      var share := Share(peers[0], nMessages, next);
      var rest := Distribute(peers[1..], nMessages, next, remainder - share, false);
      var sent := Sent(peers[0], next, share);
      TimesConcat(sent, rest.log, next);
      TimesConcat(sent, rest.log, i);
      SentTimes(peers[0], next, share, next);
      SentTimes(peers[0], next, share, i);
      if remainder - share > 0 {
        StuckTimes(peers[1..], nMessages, next, remainder - share, i);
      }
    }
  }

  /** As written a batch is dispatched exactly once exactly when it fits locally, no remote host has room, or the
      first one that has takes all that is left. */
  lemma PlacementAsWritten(nMessages: nat, nLocally: nat, peers: seq<Peer>)
    requires nLocally <= nMessages
    ensures ExactlyOnce(Placement(nMessages, nLocally, peers, false), nMessages)
       <==> nLocally == nMessages || FirstWithRoomTakesAll(peers, nMessages - nLocally)
  {
    var log := Placement(nMessages, nLocally, peers, false);
    if nLocally == nMessages {
      forall i: nat ensures Times(log, i) == if i < nMessages then 1 else 0 {
        PlacementTimes(nMessages, nLocally, peers, false, i);
      }
    } else if FirstWithRoomTakesAll(peers, nMessages - nLocally) {
      forall i: nat ensures Times(log, i) == if i < nMessages then 1 else 0 {
        PlacementTimes(nMessages, nLocally, peers, false, i);
        StuckTimes(peers, nMessages, nLocally, nMessages - nLocally, i);
      }
    } else {
      PlacementTimes(nMessages, nLocally, peers, false, nLocally);
      StuckTimes(peers, nMessages, nLocally, nMessages - nLocally, nLocally);
      assert Times(log, nLocally) >= 2;
    }
  }

  /** The first host with room, if any. */
  function FirstWithRoom(peers: seq<Peer>): Option<Host> {
    if peers == [] then None
    else if HasRoom(peers[0]) then Some(peers[0].host)
    else FirstWithRoom(peers[1..])
  }

  lemma {:induction false} TakenByOne(peers: seq<Peer>, nMessages: nat, next: nat)
    requires next < nMessages && FirstWithRoomTakesAll(peers, nMessages - next)
    ensures Distribute(peers, nMessages, next, nMessages - next, false)
         == match FirstWithRoom(peers)
            case None => Distribution([], next, nMessages - next)
            case Some(host) => Distribution([Remote(host, next, nMessages - next)], next, 0)
    decreases |peers|
  {
    if peers != [] && !HasRoom(peers[0]) {
      TakenByOne(peers[1..], nMessages, next);
    }
  }

  /** Here as far as the free cores go, the rest on the first host with room, or here too if there is none. */
  function Hosts(nMessages: nat, nLocally: nat, peers: seq<Peer>, thisHost: Host): (hosts: seq<Option<Host>>)
    ensures |hosts| == nMessages
  {
    seq(nMessages, i requires 0 <= i < nMessages =>
      Some(if i < nLocally || FirstWithRoom(peers).None? then thisHost else FirstWithRoom(peers).value))
  }

  /** Where the messages of such a batch are recorded. */
  lemma PlacedHosts(executed: seq<Option<Host>>, nLocally: nat, peers: seq<Peer>, thisHost: Host)
    requires nLocally <= |executed|
    requires nLocally == |executed| || FirstWithRoomTakesAll(peers, |executed| - nLocally)
    requires RecordsOf(executed, Placement(|executed|, nLocally, peers, false), thisHost, Blank(|executed|))
    ensures executed == Hosts(|executed|, nLocally, peers, thisHost)
  {
    hide Recorded, Placement;
    forall i | 0 <= i < |executed| ensures executed[i] == Hosts(|executed|, nLocally, peers, thisHost)[i] {
      RecordedPlacement(|executed|, nLocally, peers, thisHost, i);
    }
  }

  lemma PlacementWhole(nMessages: nat, peers: seq<Peer>)
    ensures Placement(nMessages, nMessages, peers, false) == Locals(0, nMessages)
  {
    assert Locals(0, nMessages) + [] + [] == Locals(0, nMessages);
  }

  /** What a batch placed on its master host comes to: the queue and the records. */
  lemma BatchPlaced(
    l: Ledger, req: seq<Message>, nLocally: nat, peers: seq<Peer>, executed: seq<Option<Host>>, log: seq<Dispatch>,
    thisHost: Host)
    requires req != [] && nLocally <= |req| && forall i :: 0 <= i < |req| ==> req[i].func == req[0].func
    requires log == Placement(|req|, nLocally, peers, false) || (nLocally == |req| && log == Locals(0, |req|))
    requires RecordsOf(executed, log, thisHost, Blank(|req|))
    ensures Hosted(executed, log, thisHost)
    ensures nLocally == |req| || FirstWithRoomTakesAll(peers, |req| - nLocally) ==>
              executed == Hosts(|req|, nLocally, peers, thisHost)
    ensures Queue(AcceptedLog(l, req, log), req[0].func)
         == Queue(l, req[0].func) + if SomeLeft(|req|, nLocally, peers) then req else req[..nLocally]
    ensures l.bindQueue <= AcceptedLog(l, req, log).bindQueue
  {
    RecordsLength(executed, log, thisHost, Blank(|req|));
    hide *;
    PlacementWhole(|req|, peers);
    RecordsHosted(executed, log, thisHost, Blank(|req|));
    if nLocally == |req| || FirstWithRoomTakesAll(peers, |req| - nLocally) {
      PlacedHosts(executed, nLocally, peers, thisHost);
    }
    PlacementQueued(l, req, nLocally, peers, req[0].func);
  }

  lemma RecordedPlacement(nMessages: nat, nLocally: nat, peers: seq<Peer>, thisHost: Host, i: nat)
    requires nLocally <= nMessages && i < nMessages
    requires nLocally == nMessages || FirstWithRoomTakesAll(peers, nMessages - nLocally)
    ensures Recorded(Placement(nMessages, nLocally, peers, false), i, thisHost, None)
         == Some(if i < nLocally || FirstWithRoom(peers).None? then thisHost else FirstWithRoom(peers).value)
  {
    var d := Distribute(peers, nMessages, nLocally, nMessages - nLocally, false);
    var here := Locals(0, nLocally);
    if nLocally == nMessages {
      assert d == Distribution([], nLocally, 0);
    } else {
      TakenByOne(peers, nMessages, nLocally);
    }
    hide Distribute, Recorded, Locals;
    var last := if d.remainder > 0 then Locals(nLocally, nMessages) else [];
    RecordedConcat(here + d.log, last, i, thisHost, None);
    RecordedConcat(here, d.log, i, thisHost, None);
    RecordedLocals(0, nLocally, i, thisHost, None);
    var first := Recorded(here, i, thisHost, None);
    if nLocally < nMessages && FirstWithRoom(peers).Some? {
      RecordedSent(Peer(FirstWithRoom(peers).value, 0), nLocally, nMessages - nLocally, i, thisHost, first);
    } else {
      RecordedNone(i, thisHost, first);
    }
    RecordedLocals(nLocally, nMessages, i, thisHost, first);
    RecordedNone(i, thisHost, Recorded(here + d.log, i, thisHost, None));
  }

  lemma RecordedNone(i: nat, thisHost: Host, before: Option<Host>)
    ensures Recorded([], i, thisHost, before) == before
  {
  }

  const TWO_PEERS: seq<Peer> := [Peer("a", 1), Peer("b", 1)]

  /** Two messages, none of which fits here, and two hosts with room for one each: the first message goes to both, the
      second to none. */
  lemma PlacementRepeats()
    ensures var log := Placement(2, 0, TWO_PEERS, false); Times(log, 0) == 2 && Times(log, 1) == 0
  {
    var first, second := Remote("a", 0, 1), Remote("b", 0, 1);
    var rest := [Peer("b", 1)];
    assert TWO_PEERS[1..] == rest && rest[1..] == [];
    assert Distribute(rest, 2, 0, 1, false) == Distribution([second], 0, 0);
    assert Distribute(TWO_PEERS, 2, 0, 2, false) == Distribution([first, second], 0, 0);
    assert Placement(2, 0, TWO_PEERS, false) == [first, second];
    assert [first, second][1..] == [second] && [second][1..] == [];
    forall i: nat ensures Times([first, second], i) == if i == 0 then 2 else 0 {
      assert Times([second], i) == if i == 0 then 1 else 0;
    }
  }

  /** Either way no host is sent more than the free cores it reported. */
  lemma {:induction false} SharesFit(
    peers: seq<Peer>, nMessages: nat, next: nat, remainder: int, advance: bool, d: Dispatch)
    requires next <= nMessages && d in Distribute(peers, nMessages, next, remainder, advance).log
    ensures d.Remote? && exists p :: 0 <= p < |peers| && peers[p].host == d.host && d.count <= peers[p].free
    decreases |peers|
  {
    var share := Share(peers[0], nMessages, next);
    var next' := if advance then next + share else next;
    if d in Sent(peers[0], next, share) {
      assert peers[0].host == d.host && d.count <= peers[0].free;
    } else {
      SharesFit(peers[1..], nMessages, next', remainder - share, advance, d);
      var p :| 0 <= p < |peers[1..]| && peers[1..][p].host == d.host && d.count <= peers[1..][p].free;
      assert peers[p + 1] == peers[1..][p];
    }
  }

  lemma SharesOfHosts(peers: seq<Peer>, nMessages: nat, next: nat, remainder: int, advance: bool, k: nat)
    requires next <= nMessages && k < |Distribute(peers, nMessages, next, remainder, advance).log|
    ensures var d := Distribute(peers, nMessages, next, remainder, advance).log[k];
      d.Remote? && exists p :: 0 <= p < |peers| && peers[p].host == d.host
  {
    var log := Distribute(peers, nMessages, next, remainder, advance).log;
    SharesFit(peers, nMessages, next, remainder, advance, log[k]);
  }

  lemma FirstShare(peers: seq<Peer>, nMessages: nat, next: nat, remainder: int, advance: bool, k: nat)
    requires next <= nMessages && k < |Distribute(peers, nMessages, next, remainder, advance).log|
    ensures peers != []
    ensures var share := Share(peers[0], nMessages, next);
      var log := Distribute(peers, nMessages, next, remainder, advance).log;
      var next' := if advance then next + share else next;
      var rest := Distribute(peers[1..], nMessages, next', remainder - share, advance).log;
      var shift := if share > 0 then 1 else 0;
      && |log| == |rest| + shift
      && log[k] == if k < shift then Remote(peers[0].host, next, share) else rest[k - shift]
  {
  }

  /** And each host is sent at most one stretch. */
  lemma {:induction false} OneShareEach(
    peers: seq<Peer>, nMessages: nat, next: nat, remainder: int, advance: bool, j: nat, k: nat)
    requires next <= nMessages
    requires forall a, b :: 0 <= a < b < |peers| ==> peers[a].host != peers[b].host
    requires j < k < |Distribute(peers, nMessages, next, remainder, advance).log|
    ensures var log := Distribute(peers, nMessages, next, remainder, advance).log;
      log[j].Remote? && log[k].Remote? && log[j].host != log[k].host
    decreases |peers|
  {
    hide Distribute, Share;
    FirstShare(peers, nMessages, next, remainder, advance, j);
    FirstShare(peers, nMessages, next, remainder, advance, k);
    var share := Share(peers[0], nMessages, next);
    var next' := if advance then next + share else next;
    var shift := if share > 0 then 1 else 0;
    if j < shift {
      SharesOfHosts(peers[1..], nMessages, next', remainder - share, advance, k - shift);
      var rest := Distribute(peers[1..], nMessages, next', remainder - share, advance).log;
      var p :| 0 <= p < |peers[1..]| && peers[1..][p].host == rest[k - shift].host;
      assert peers[p + 1] == peers[1..][p];
    } else {
      OneShareEach(peers[1..], nMessages, next', remainder - share, advance, j - shift, k - shift);
    }
  }
}
