/** Election of the master of a state key by any number of hosts through one Redis lock. */
module MasterElection {
  import opened Wrappers

  /** Hosts are numbered; the number stands for the host's non-empty address. */
  type Host = nat

  const REMOTE_LOCK_MAX_RETRIES: nat := 100

  /** Where a host is inside its call of getMasterIP. */
  datatype Pc =
    | Idle
    | Asking(claim: bool)
    | Waiting
    | Holding(lockId: nat)
    | Claiming(lockId: nat)
    | Releasing(lockId: nat, master: Host)
    | Caching(master: Host)

  datatype HostState = HostState(pc: Pc, cache: Option<Host>)

  /** The store holds the master key and the lock key; `issued` is the set of lock ids generated so far. */
  datatype State = State(hosts: seq<HostState>, master: Option<Host>, lock: Option<nat>, issued: set<nat>)

  datatype Step =
    | Start(h: Host, claim: bool)
    | Ask(h: Host)
    | TryLock(h: Host, id: nat)
    | GiveUp(h: Host)
    | Recheck(h: Host)
    | SetMaster(h: Host)
    | Release(h: Host)
    | Cache(h: Host)
    | Expire
    | Restart(h: Host)

  predicate InCriticalSection(pc: Pc, id: nat) {
    (pc.Holding? || pc.Claiming?) && pc.lockId == id
  }

  function At(s: State, h: Host, pc: Pc): State
    requires h < |s.hosts|
  {
    s.(hosts := s.hosts[h := s.hosts[h].(pc := pc)])
  }

  predicate HostEnabled(s: State, h: Host, step: Step)
    requires h < |s.hosts|
  {
    var pc := s.hosts[h].pc;
    match step
    case Start(_, _) => pc.Idle? && s.hosts[h].cache.None?
    case Ask(_) => pc.Asking?
    case TryLock(_, id) => pc.Waiting? && id != 0 && id !in s.issued
    case GiveUp(_) => pc.Waiting?
    case Recheck(_) => pc.Holding?
    case SetMaster(_) => pc.Claiming?
    case Release(_) => pc.Releasing?
    case Cache(_) => pc.Caching?
    case Restart(_) => true
    case Expire => false
  }

  predicate Possible(s: State, step: Step) {
    step.Expire? || (step.h < |s.hosts| && HostEnabled(s, step.h, step))
  }

  /** Each step is one command on the store, or one local assignment. The lock expires only when no host is
      between taking it and setting the master key. */
  predicate Enabled(s: State, step: Step) {
    && Possible(s, step)
    && (step.Expire? && s.lock.Some? ==>
          forall h :: 0 <= h < |s.hosts| ==> !InCriticalSection(s.hosts[h].pc, s.lock.value))
  }

  /** The effect of a step by a host, or of the lock running out. */
  function Effect(s: State, step: Step): State
    requires Possible(s, step)
  {
    match step
    case Start(h, claim) => At(s, h, Asking(claim))
    case Ask(h) =>
      if s.master.Some? then At(s, h, Caching(s.master.value))
      else if s.hosts[h].pc.claim then At(s, h, Waiting)
      else At(s, h, Idle)
    case TryLock(h, id) =>
      if s.lock.None? then At(s, h, Holding(id)).(lock := Some(id), issued := s.issued + {id})
      else s.(issued := s.issued + {id})
    case GiveUp(h) => At(s, h, Idle)
    case Recheck(h) =>
      var id := s.hosts[h].pc.lockId;
      if s.master.Some? then At(s, h, Releasing(id, s.master.value)) else At(s, h, Claiming(id))
    case SetMaster(h) => At(s, h, Releasing(s.hosts[h].pc.lockId, h)).(master := Some(h))
    case Release(h) =>
      At(s, h, Caching(s.hosts[h].pc.master)).(lock := if s.lock == Some(s.hosts[h].pc.lockId) then None else s.lock)
    case Cache(h) => s.(hosts := s.hosts[h := HostState(Idle, Some(s.hosts[h].pc.master))])
    case Expire => s.(lock := None)
    case Restart(h) => s.(hosts := s.hosts[h := HostState(Idle, None)])
  }

  function Initial(nHosts: nat): State {
    State(seq(nHosts, _ => HostState(Idle, None)), None, None, {})
  }

  ghost predicate Next(s: State, t: State) {
    exists step :: Enabled(s, step) && t == Effect(s, step)
  }

  ghost predicate IsRun(run: seq<State>, nHosts: nat) {
    && run != [] && run[0] == Initial(nHosts)
    && forall k :: 0 <= k < |run| - 1 ==> Next(run[k], run[k + 1])
  }

  predicate Agrees(s: State, h: HostState) {
    && (h.cache.Some? ==> s.master == h.cache)
    && (h.pc.Releasing? || h.pc.Caching? ==> s.master == Some(h.pc.master))
    && (h.pc.Claiming? ==> s.master.None?)
    && (h.pc.Holding? || h.pc.Claiming? ==> s.lock == Some(h.pc.lockId))
    && (h.pc.Holding? || h.pc.Claiming? || h.pc.Releasing? ==> h.pc.lockId in s.issued)
  }

  predicate SameLock(a: Pc, b: Pc) {
    (a.Holding? || a.Claiming?) && (b.Holding? || b.Claiming? || b.Releasing?) && a.lockId == b.lockId
  }

  predicate Invariant(s: State) {
    && (forall h :: 0 <= h < |s.hosts| ==> Agrees(s, s.hosts[h]))
    && (forall g, h :: 0 <= g < |s.hosts| && 0 <= h < |s.hosts| && g != h ==> !SameLock(s.hosts[g].pc, s.hosts[h].pc))
    && (s.lock.Some? ==> s.lock.value in s.issued)
  }

  lemma StepKeepsInvariant(s: State, step: Step)
    requires Invariant(s) && Enabled(s, step)
    ensures Invariant(Effect(s, step))
    ensures s.master.Some? ==> Effect(s, step).master == s.master
    ensures |Effect(s, step).hosts| == |s.hosts|
  {
    var t := Effect(s, step);
    if step.SetMaster? {
      var h := step.h;
      assert Agrees(s, s.hosts[h]);
      forall g | 0 <= g < |t.hosts| ensures Agrees(t, t.hosts[g]) {
        assert Agrees(s, s.hosts[g]);
        assert g != h ==> !SameLock(s.hosts[g].pc, s.hosts[h].pc);
      }
    } else if step.Release? {
      var h := step.h;
      forall g | 0 <= g < |t.hosts| ensures Agrees(t, t.hosts[g]) {
        assert Agrees(s, s.hosts[g]);
        assert g != h ==> !SameLock(s.hosts[g].pc, s.hosts[h].pc);
      }
    } else {
      forall g | 0 <= g < |t.hosts| ensures Agrees(t, t.hosts[g]) {
        assert Agrees(s, s.hosts[g]);
      }
    }
  }

  lemma {:induction false} RunKeepsInvariant(run: seq<State>, nHosts: nat, k: nat)
    requires IsRun(run, nHosts) && k < |run|
    ensures Invariant(run[k]) && |run[k].hosts| == nHosts
  {
    if k > 0 {
      hide Enabled, Effect, Invariant;
      RunKeepsInvariant(run, nHosts, k - 1);
      assert Next(run[k - 1], run[k - 1 + 1]);
      var step :| Enabled(run[k - 1], step) && run[k] == Effect(run[k - 1], step);
      StepKeepsInvariant(run[k - 1], step);
    }
  }

  /** The master key, once set, never changes again. */
  lemma {:induction false} MasterIsStable(run: seq<State>, nHosts: nat, j: nat, k: nat)
    requires IsRun(run, nHosts) && j <= k < |run| && run[j].master.Some?
    ensures run[k].master == run[j].master
  {
    if j < k {
      hide Enabled, Effect, Invariant;
      MasterIsStable(run, nHosts, j, k - 1);
      RunKeepsInvariant(run, nHosts, k - 1);
      assert Next(run[k - 1], run[k - 1 + 1]);
      var step :| Enabled(run[k - 1], step) && run[k] == Effect(run[k - 1], step);
      StepKeepsInvariant(run[k - 1], step);
    }
  }

  /** Every answer any host ever caches is the master key, then and ever after. */
  lemma CachedMasterAgrees(run: seq<State>, nHosts: nat, j: nat, k: nat, h: Host)
    requires IsRun(run, nHosts) && j <= k < |run| && h < nHosts
    ensures |run[j].hosts| == nHosts
    ensures run[j].hosts[h].cache.Some? ==> run[k].master == run[j].hosts[h].cache
  {
    RunKeepsInvariant(run, nHosts, j);
    assert Agrees(run[j], run[j].hosts[h]);
    if run[j].hosts[h].cache.Some? {
      MasterIsStable(run, nHosts, j, k);
    }
  }

  /** At most one host ever considers itself the master, whenever each of them decided. */
  lemma AtMostOneMaster(run: seq<State>, nHosts: nat, j: nat, k: nat, g: Host, h: Host)
    requires IsRun(run, nHosts) && j < |run| && k < |run| && g < nHosts && h < nHosts
    ensures |run[j].hosts| == nHosts && |run[k].hosts| == nHosts
    ensures run[j].hosts[g].cache == Some(g) && run[k].hosts[h].cache == Some(h) ==> g == h
  {
    CachedMasterAgrees(run, nHosts, j, |run| - 1, g);
    CachedMasterAgrees(run, nHosts, k, |run| - 1, h);
  }

  function Last(run: seq<State>): State
    requires run != []
  {
    run[|run| - 1]
  }

  lemma ExtendRun(run: seq<State>, nHosts: nat, step: Step) returns (longer: seq<State>)
    requires IsRun(run, nHosts) && Enabled(Last(run), step)
    ensures IsRun(longer, nHosts) && longer == run + [Effect(Last(run), step)]
  {
    hide Possible, Effect;
    longer := run + [Effect(Last(run), step)];
    forall k | 0 <= k < |longer| - 1 ensures Next(longer[k], longer[k + 1]) {
      if k < |run| - 1 {
        assert Next(run[k], run[k + 1]);
      }
    }
  }

  // ------------------------------------------------ the assumption is needed

  ghost predicate LooseNext(s: State, t: State) {
    exists step :: Possible(s, step) && t == Effect(s, step)
  }

  /** A run in which the lock may expire at any time. */
  ghost predicate LooseRun(run: seq<State>, nHosts: nat) {
    && run != [] && run[0] == Initial(nHosts)
    && forall k :: 0 <= k < |run| - 1 ==> LooseNext(run[k], run[k + 1])
  }

  lemma ExtendLoose(run: seq<State>, nHosts: nat, step: Step, t: State) returns (longer: seq<State>)
    requires LooseRun(run, nHosts) && Possible(Last(run), step) && Effect(Last(run), step) == t
    ensures LooseRun(longer, nHosts) && Last(longer) == t
  {
    hide Possible, Effect;
    longer := run + [t];
    forall k | 0 <= k < |longer| - 1 ensures LooseNext(longer[k], longer[k + 1]) {
      if k < |run| - 1 {
        assert LooseNext(run[k], run[k + 1]);
      }
    }
  }

  lemma FirstClaimsThenExpires(run: seq<State>) returns (longer: seq<State>)
    requires LooseRun(run, 2) && Last(run) == Initial(2)
    ensures LooseRun(longer, 2)
    ensures Last(longer) == State([HostState(Claiming(1), None), HostState(Idle, None)], None, None, {1})
  {
    hide LooseRun;
    var idle := HostState(Idle, None);
    longer := ExtendLoose(run, 2, Start(0, true), State([HostState(Asking(true), None), idle], None, None, {}));
    longer := ExtendLoose(longer, 2, Ask(0), State([HostState(Waiting, None), idle], None, None, {}));
    longer := ExtendLoose(longer, 2, TryLock(0, 1), State([HostState(Holding(1), None), idle], None, Some(1), {1}));
    longer := ExtendLoose(longer, 2, Recheck(0), State([HostState(Claiming(1), None), idle], None, Some(1), {1}));
    longer := ExtendLoose(longer, 2, Expire, State([HostState(Claiming(1), None), idle], None, None, {1}));
  }

  lemma SecondClaims(run: seq<State>) returns (longer: seq<State>)
    requires LooseRun(run, 2)
    requires Last(run) == State([HostState(Claiming(1), None), HostState(Idle, None)], None, None, {1})
    ensures LooseRun(longer, 2)
    ensures Last(longer) == State([HostState(Claiming(1), None), HostState(Claiming(2), None)], None, Some(2), {1, 2})
  {
    hide LooseRun;
    var first := HostState(Claiming(1), None);
    longer := ExtendLoose(run, 2, Start(1, true), State([first, HostState(Asking(true), None)], None, None, {1}));
    longer := ExtendLoose(longer, 2, Ask(1), State([first, HostState(Waiting, None)], None, None, {1}));
    longer := ExtendLoose(longer, 2, TryLock(1, 2), State([first, HostState(Holding(2), None)], None, Some(2), {1, 2}));
    longer := ExtendLoose(longer, 2, Recheck(1), State([first, HostState(Claiming(2), None)], None, Some(2), {1, 2}));
  }

  /** If the lock may run out while its holder is about to set the key, two hosts both become master. */
  lemma ExpiryInCriticalSectionSplits()
    ensures exists run ::
      && LooseRun(run, 2) && |Last(run).hosts| == 2
      && Last(run).hosts[0].cache == Some(0) && Last(run).hosts[1].cache == Some(1)
  {
    hide LooseRun;
    LooseStart(2);
    var run := FirstClaimsThenExpires([Initial(2)]);
    run := SecondClaims(run);
    var second, done := HostState(Claiming(2), None), HostState(Idle, Some(0));
    var issued := {1, 2};
    var first := HostState(Releasing(1, 0), None);
    run := ExtendLoose(run, 2, SetMaster(0), State([first, second], Some(0), Some(2), issued));
    run := ExtendLoose(run, 2, Release(0), State([HostState(Caching(0), None), second], Some(0), Some(2), issued));
    run := ExtendLoose(run, 2, Cache(0), State([done, second], Some(0), Some(2), issued));
    run := ExtendLoose(run, 2, SetMaster(1), State([done, HostState(Releasing(2, 1), None)], Some(1), Some(2), issued));
    run := ExtendLoose(run, 2, Release(1), State([done, HostState(Caching(1), None)], Some(1), None, issued));
    run := ExtendLoose(run, 2, Cache(1), State([done, HostState(Idle, Some(1))], Some(1), None, issued));
  }

  lemma LooseStart(nHosts: nat)
    ensures LooseRun([Initial(nHosts)], nHosts)
  {
  }

  // -------------------------------------------------- the store and the registry

  /** The part of Redis the election uses: a key for the master and a key for its lock. */
  class Store {
    var master: Option<Host>
    var lock: Option<nat>

    constructor ()
      ensures master.None? && lock.None?
    {
      master, lock := None, None;
    }

    /** Set if not there, with an expiry. */
    method SetNxEx(value: nat) returns (success: bool)
      modifies this`lock
      ensures success == old(lock).None?
      ensures lock == if success then Some(value) else old(lock)
    {
      success := lock.None?;
      if success {
        lock := Some(value);
      }
    }

    method DelIfEq(value: nat)
      modifies this`lock
      ensures lock == if old(lock) == Some(value) then None else old(lock)
    {
      if lock == Some(value) {
        lock := None;
      }
    }

    /** The lock's id, or zero if somebody holds it. */
    method AcquireLock(gid: nat) returns (lockId: nat)
      requires gid != 0
      modifies this`lock
      ensures lockId == if old(lock).None? then gid else 0
      ensures lock == if old(lock).None? then Some(gid) else old(lock)
    {
      var result := SetNxEx(gid);
      lockId := if result then gid else 0;
    }
  }

  datatype Failure = NoMaster | NoLock | MasterItself

  // --------------------------------------------- the calls as steps of the protocol

  predicate Leads(s: State, steps: seq<Step>, t: State)
    decreases |steps|
  {
    if steps == [] then s == t else Enabled(s, steps[0]) && Leads(Effect(s, steps[0]), steps[1..], t)
  }

  lemma {:induction false} LeadsOn(s: State, steps: seq<Step>, t: State, step: Step)
    requires Leads(s, steps, t) && Enabled(t, step)
    ensures Leads(s, steps + [step], Effect(t, step))
    decreases |steps|
  {
    hide Possible, Effect;
    if steps != [] {
      assert (steps + [step])[0] == steps[0] && (steps + [step])[1..] == steps[1..] + [step];
      LeadsOn(Effect(s, steps[0]), steps[1..], t, step);
    }
  }

  lemma LeadsNowhere(s: State)
    ensures Leads(s, [], s)
  {
  }

  lemma {:induction false} LeadsConcat(s: State, a: seq<Step>, t: State, b: seq<Step>, u: State)
    requires Leads(s, a, t) && Leads(t, b, u)
    ensures Leads(s, a + b, u)
    decreases |a|
  {
    hide Possible, Effect;
    if a == [] {
      assert a + b == b;
    } else {
      assert (a + b)[0] == a[0] && (a + b)[1..] == a[1..] + b;
      LeadsConcat(Effect(s, a[0]), a[1..], t, b, u);
    }
  }

  lemma LockExpires(s: State, h: Host)
    requires h < |s.hosts| && !s.hosts[h].pc.Holding? && !s.hosts[h].pc.Claiming?
    requires forall g :: 0 <= g < |s.hosts| && g != h ==> !s.hosts[g].pc.Holding? && !s.hosts[g].pc.Claiming?
    ensures Enabled(s, Expire) && Effect(s, Expire) == s.(lock := None)
  {
  }

  /** Asking for the master, when none is cached. */
  lemma AsksMaster(s: State, h: Host, claim: bool)
    requires h < |s.hosts| && s.hosts[h] == HostState(Idle, None)
    ensures var pc := if s.master.Some? then Caching(s.master.value) else if claim then Waiting else Idle;
      Leads(s, [Start(h, claim), Ask(h)], s.(hosts := s.hosts[h := HostState(pc, None)]))
  {
    hide Leads;
    var asking := Effect(s, Start(h, claim));
    LeadsNowhere(s);
    LeadsOn(s, [], s, Start(h, claim));
    LeadsOn(s, [] + [Start(h, claim)], asking, Ask(h));
    var pc := if s.master.Some? then Caching(s.master.value) else if claim then Waiting else Idle;
    assert Effect(asking, Ask(h)).hosts == s.hosts[h := HostState(pc, None)];
    assert [] + [Start(h, claim)] + [Ask(h)] == [Start(h, claim), Ask(h)];
  }

  /** With the lock: the key is set, the lock released and the answer cached. */
  lemma Claims(s: State, h: Host, id: nat)
    requires h < |s.hosts| && s.hosts[h] == HostState(Holding(id), None) && s.lock == Some(id) && s.master.None?
    ensures Leads(s, [Recheck(h), SetMaster(h), Release(h)],
                  s.(hosts := s.hosts[h := HostState(Caching(h), None)], master := Some(h), lock := None))
  {
    hide Leads;
    var claiming := Effect(s, Recheck(h));
    var owned := Effect(claiming, SetMaster(h));
    LeadsNowhere(s);
    LeadsOn(s, [], s, Recheck(h));
    LeadsOn(s, [] + [Recheck(h)], claiming, SetMaster(h));
    LeadsOn(s, [] + [Recheck(h)] + [SetMaster(h)], owned, Release(h));
    assert Effect(owned, Release(h)).hosts == s.hosts[h := HostState(Caching(h), None)];
    assert [] + [Recheck(h)] + [SetMaster(h)] + [Release(h)] == [Recheck(h), SetMaster(h), Release(h)];
  }

  /** Steps from where a run has got to make a longer run. */
  lemma {:induction false} LeadsRun(run: seq<State>, nHosts: nat, steps: seq<Step>, t: State)
    returns (longer: seq<State>)
    requires IsRun(run, nHosts) && Leads(Last(run), steps, t)
    ensures IsRun(longer, nHosts) && run <= longer && Last(longer) == t
    decreases |steps|
  {
    hide IsRun, Possible, Effect;
    RunNonEmpty(run, nHosts);
    longer := run;
    if steps != [] {
      longer := ExtendRun(run, nHosts, steps[0]);
      longer := LeadsRun(longer, nHosts, steps[1..], t);
    }
  }

  lemma RunNonEmpty(run: seq<State>, nHosts: nat)
    requires IsRun(run, nHosts)
    ensures run != []
  {
  }

  /** A state of the protocol in which a host is somewhere in its call and nobody else has the lock's protection. */
  ghost predicate Fits(s: State, h: Host, pc: Pc, cache: Option<Host>, store: Store)
    reads store
  {
    && h < |s.hosts| && s.hosts[h] == HostState(pc, cache) && s.master == store.master && s.lock == store.lock
    && forall g :: 0 <= g < |s.hosts| && g != h ==> !s.hosts[g].pc.Holding? && !s.hosts[g].pc.Claiming?
  }

  predicate NewIds(gids: seq<nat>, from: nat, issued: set<nat>) {
    && (forall k :: from <= k < |gids| ==> gids[k] != 0 && gids[k] !in issued)
    && (forall j, k :: from <= j < k < |gids| ==> gids[j] != gids[k])
  }

  function AtHost(s: State, h: Host, pc: Pc): State
    requires h < |s.hosts|
  {
    s.(hosts := s.hosts[h := HostState(pc, None)])
  }

  /** The other hosts are where they were. */
  predicate OthersStill(s: State, t: State, h: Host) {
    h < |s.hosts| == |t.hosts| && t.hosts == s.hosts[h := t.hosts[h]]
  }

  /** One host's registry, asking for one key. The ghost state is one of the protocol that fits what the host sees. */
  class Registry {
    const thisHost: Host
    var masterMap: Option<Host>

    constructor (host: Host)
      ensures thisHost == host && masterMap.None?
    {
      thisHost, masterMap := host, None;
    }

    /** One attempt at the lock. */
    method TryOnce(store: Store, gids: seq<nat>, k: nat, ghost s: State) returns (lockId: nat, ghost t: State)
      requires k < |gids| && NewIds(gids, k, s.issued) && Fits(s, thisHost, Waiting, None, store)
      modifies store`lock
      ensures lockId != 0 <==> old(store.lock).None?
      ensures Enabled(s, TryLock(thisHost, gids[k])) && t == Effect(s, TryLock(thisHost, gids[k]))
      ensures Fits(t, thisHost, if lockId != 0 then Holding(lockId) else Waiting, None, store)
      ensures OthersStill(s, t, thisHost) && NewIds(gids, k + 1, t.issued) && store.master == old(store.master)
      ensures store.lock == if lockId != 0 then Some(lockId) else old(store.lock)
    {
      t := Effect(s, TryLock(thisHost, gids[k]));
      lockId := store.AcquireLock(gids[k]);
    }

    /** The retries; before each the lock may run out. */
    method WaitOnRemoteLock(store: Store, gids: seq<nat>, expires: nat -> bool, ghost s: State)
      returns (lockId: nat, ghost steps: seq<Step>, ghost t: State)
      requires |gids| == REMOTE_LOCK_MAX_RETRIES + 1 && NewIds(gids, 0, s.issued)
      requires Fits(s, thisHost, Waiting, None, store)
      modifies store`lock
      ensures lockId != 0 <==> old(store.lock).None? || exists k :: 0 <= k < REMOTE_LOCK_MAX_RETRIES && expires(k)
      ensures store.lock == if lockId != 0 then Some(lockId) else old(store.lock)
      ensures Leads(s, steps, t) && OthersStill(s, t, thisHost)
      ensures Fits(t, thisHost, if lockId != 0 then Holding(lockId) else Waiting, None, store)
    {
      hide Leads, Effect, Enabled, NewIds;
      LeadsNowhere(s);
      lockId, t := TryOnce(store, gids, 0, s);
      LeadsOn(s, [], s, TryLock(thisHost, gids[0]));
      steps := [] + [TryLock(thisHost, gids[0])];
      var retryCount := 0;
      while lockId == 0
        invariant 0 <= retryCount <= REMOTE_LOCK_MAX_RETRIES
        invariant lockId != 0 <==> old(store.lock).None? || exists k :: 0 <= k < retryCount && expires(k)
        invariant store.lock == if lockId != 0 then Some(lockId) else old(store.lock)
        invariant Leads(s, steps, t) && OthersStill(s, t, thisHost) && NewIds(gids, retryCount + 1, t.issued)
        invariant Fits(t, thisHost, if lockId != 0 then Holding(lockId) else Waiting, None, store)
        decreases REMOTE_LOCK_MAX_RETRIES - retryCount, lockId == 0
      {
        if retryCount >= REMOTE_LOCK_MAX_RETRIES {
          break;
        }
        if expires(retryCount) {
          store.lock := None;
          LockExpires(t, thisHost);
          LeadsOn(s, steps, t, Expire);
          steps, t := steps + [Expire], Effect(t, Expire);
        }
        ghost var u := t;
        lockId, t := TryOnce(store, gids, retryCount + 1, u);
        LeadsOn(s, steps, u, TryLock(thisHost, gids[retryCount + 1]));
        steps := steps + [TryLock(thisHost, gids[retryCount + 1])];
        retryCount := retryCount + 1;
      }
    }

    /** The call when other hosts do no more than let the lock run out: what it answers, what it leaves in the store and
        in the map, and the steps of the protocol it takes. */
    method GetMasterIP(store: Store, claim: bool, gids: seq<nat>, expires: nat -> bool, ghost s: State)
      returns (master: Result<Host, Failure>, ghost steps: seq<Step>, ghost t: State)
      requires |gids| == REMOTE_LOCK_MAX_RETRIES + 1 && NewIds(gids, 0, s.issued)
      requires Fits(s, thisHost, Idle, masterMap, store)
      modifies this`masterMap, store
      ensures var free := old(store.lock).None? || exists k :: 0 <= k < REMOTE_LOCK_MAX_RETRIES && expires(k);
        var known := if old(masterMap).Some? then old(masterMap) else old(store.master);
        && master == (if known.Some? then Ok(known.value)
                      else if !claim then Err(NoMaster) else if free then Ok(thisHost) else Err(NoLock))
        && masterMap == (if master.Ok? then Some(master.value) else None)
        && store.master == (if known.None? && master.Ok? then Some(thisHost) else old(store.master))
        && store.lock == if known.None? && claim && free then None else old(store.lock)
      ensures Leads(s, steps, t) && Fits(t, thisHost, Idle, masterMap, store) && OthersStill(s, t, thisHost)
    {
      hide Leads, NewIds;
      LeadsNowhere(s);
      steps, t := [], s;
      if masterMap.Some? {
        return Ok(masterMap.value), steps, t;
      }
      AsksMaster(s, thisHost, claim);
      steps := [Start(thisHost, claim), Ask(thisHost)];
      t := AtHost(s, thisHost, if store.master.Some? then Caching(store.master.value)
                               else if claim then Waiting else Idle);
      var found := store.master;
      if found.None? && !claim {
        return Err(NoMaster), steps, t;
      }
      if found.None? {
        ghost var waiting := t;
        var lockId;
        ghost var tries;
        lockId, tries, t := WaitOnRemoteLock(store, gids, expires, waiting);
        LeadsConcat(s, steps, waiting, tries, t);
        steps := steps + tries;
        if lockId == 0 {
          LeadsOn(s, steps, t, GiveUp(thisHost));
          steps, t := steps + [GiveUp(thisHost)], Effect(t, GiveUp(thisHost));
          return Err(NoLock), steps, t;
        }
        found := store.master;
        if found.None? {
          found := Some(thisHost);
          store.master := found;
        }
        store.DelIfEq(lockId);
        Claims(t, thisHost, lockId);
        ghost var caching := AtHost(t, thisHost, Caching(thisHost)).(master := found, lock := None);
        LeadsConcat(s, steps, t, [Recheck(thisHost), SetMaster(thisHost), Release(thisHost)], caching);
        steps, t := steps + [Recheck(thisHost), SetMaster(thisHost), Release(thisHost)], caching;
      }
      masterMap := found;
      LeadsOn(s, steps, t, Cache(thisHost));
      steps, t := steps + [Cache(thisHost)], Effect(t, Cache(thisHost));
      master := Ok(found.value);
    }

    /** A master never claimed here: asking must find one, and find another host. */
    method GetMasterIPForOtherMaster(store: Store, gids: seq<nat>, ghost s: State)
      returns (master: Result<Host, Failure>)
      requires |gids| == REMOTE_LOCK_MAX_RETRIES + 1 && NewIds(gids, 0, s.issued)
      requires Fits(s, thisHost, Idle, masterMap, store)
      modifies this`masterMap, store
      ensures store.lock == old(store.lock) && store.master == old(store.master)
      ensures var known := if old(masterMap).Some? then old(masterMap) else old(store.master);
        && masterMap == known
        && master == if known == None then Err(NoMaster)
                     else if known.value == thisHost then Err(MasterItself) else Ok(known.value)
    {
      var found, _, _ := GetMasterIP(store, false, gids, _ => false, s);
      if found.Ok? && found.value == thisHost {
        return Err(MasterItself);
      }
      return found;
    }
  }

  /** A host at rest that claims an unclaimed key alone takes it to a run of the protocol, so what is proved of all runs
      holds of it. */
  lemma ClaimIsProtocolRun(run: seq<State>, nHosts: nat, h: Host, id: nat) returns (longer: seq<State>)
    requires IsRun(run, nHosts) && h < |Last(run).hosts| && Last(run).hosts[h] == HostState(Idle, None)
    requires Last(run).master.None? && Last(run).lock.None? && id != 0 && id !in Last(run).issued
    ensures IsRun(longer, nHosts) && |run| < |longer| && longer[..|run|] == run
    ensures var s, t := Last(run), Last(longer);
      && t.hosts == s.hosts[h := HostState(Idle, Some(h))]
      && t.master == Some(h) && t.lock.None?
  {
    RunNonEmpty(run, nHosts);
    hide IsRun, Leads;
    var s := Last(run);
    var waiting := AtHost(s, h, Waiting);
    var holding := Effect(waiting, TryLock(h, id));
    var caching := AtHost(holding, h, Caching(h)).(master := Some(h), lock := None);
    var steps := [Start(h, true), Ask(h)];
    AsksMaster(s, h, true);
    LeadsOn(s, steps, waiting, TryLock(h, id));
    Claims(holding, h, id);
    LeadsConcat(s, steps + [TryLock(h, id)], holding, [Recheck(h), SetMaster(h), Release(h)], caching);
    steps := steps + [TryLock(h, id)] + [Recheck(h), SetMaster(h), Release(h)];
    LeadsOn(s, steps, caching, Cache(h));
    longer := LeadsRun(run, nHosts, steps + [Cache(h)], Effect(caching, Cache(h)));
    assert Last(longer).hosts == s.hosts[h := HostState(Idle, Some(h))];
    assert run != longer;
  }
}
