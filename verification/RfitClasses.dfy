/** The functions, workers and resources of the pool as the objects they are; each method is one critical section, or
    the private work between two of them. */
module RfitClasses {
  import opened Wrappers
  import opened RfitPool
  import opened RfitInvariants
  import opened RfitConservation

  type Hash = nat

  // ---------------------------------------------------------------- functions

  class Function {
    const func: Func
    var globalIQueue: seq<nat>
    var restCap: int

    constructor (name: string, concurrencyLimit: nat)
      ensures func == Func(name, concurrencyLimit) && globalIQueue == [] && restCap == 0
    {
      func := Func(name, concurrencyLimit);
      globalIQueue, restCap := [], 0;
    }

    method Enqueue(i: nat)
      modifies this`globalIQueue
      ensures globalIQueue == old(globalIQueue) + [i]
    {
      globalIQueue := globalIQueue + [i];
    }

    method TryScaleDownCap(scaleCount: nat) returns (ok: bool)
      modifies this`restCap
      ensures ok <==> old(restCap) >= scaleCount
      ensures restCap == if ok then old(restCap) - scaleCount else old(restCap)
    {
      if restCap < scaleCount {
        return false;
      }
      restCap := restCap - scaleCount;
      return true;
    }

    /** The new count, or nothing where the assertion that it is not negative fails. */
    method ScaleCap(scaleCount: int) returns (count: Option<nat>)
      modifies this`restCap
      ensures restCap == old(restCap) + scaleCount
      ensures count == if restCap >= 0 then Some(restCap) else None
    {
      restCap := restCap + scaleCount;
      return if restCap >= 0 then Some(restCap) else None;
    }

    /** At most `count` instances, in the order they came. */
    method TryGetMultiI(count: nat) returns (iVector: seq<nat>)
      modifies this`globalIQueue
      ensures iVector == Pulled(old(globalIQueue), count)
      ensures globalIQueue == old(globalIQueue)[|iVector|..]
    {
      iVector := [];
      var iCount := |globalIQueue|;
      if iCount == 0 || count == 0 {
        return;
      }
      var pullCount := if count < iCount then count else iCount;
      for j := 0 to pullCount
        invariant iVector == old(globalIQueue)[..j] && globalIQueue == old(globalIQueue)[j..]
      {
        iVector := iVector + [globalIQueue[0]];
        globalIQueue := globalIQueue[1..];
      }
    }

    /** An instance is admitted; the result says whether a worker is to be found for it. */
    method Admit(i: nat) returns (needsWorker: bool)
      modifies this
      ensures func.limit <= 1 ==>
        needsWorker && globalIQueue == old(globalIQueue) && restCap == old(restCap)
      ensures func.limit > 1 ==>
        && globalIQueue == old(globalIQueue) + [i] && (needsWorker <==> old(restCap) < 1)
        && restCap == old(restCap) - 1 + if needsWorker then func.limit else 0
    {
      if !Concurrent(func) {
        return true;
      }
      Enqueue(i);
      var ok := TryScaleDownCap(1);
      if !ok {
        var _ := ScaleCap(func.limit - 1);
      }
      return !ok;
    }
  }

  /** Admission is what the first steps of a request come to when nobody interferes. */
  lemma AdmitSteps(s: Pool, f: Func)
    requires Concurrent(f)
    ensures var i := |s.reqs|;
      var reserved := Effect(Effect(s, Arrive(f)), Reserve(i));
      var t := if Cap(s, f) < 1 then Effect(reserved, Scale(i)) else reserved;
      && Queue(t, f) == Queue(s, f) + [i] && Cap(t, f) == Cap(s, f) - 1 + (if Cap(s, f) < 1 then f.limit else 0)
      && t.reqs == s.reqs + [Req(f, if Cap(s, f) < 1 then Needing else Served, 0, 0)]
      && t.workers == s.workers && t.idle == s.idle && t.busy == s.busy
  {
    var i := |s.reqs|;
    var arrived := Effect(s, Arrive(f));
    assert arrived.reqs[i] == Req(f, Admitting, 0, 0);
    assert Cap(arrived, f) == Cap(s, f);
    var reserved := Effect(arrived, Reserve(i));
    assert reserved.reqs[i].f == f;
  }

  // ----------------------------------------------------------------- local maps

  /** Additions leave what is already under the same hash. */
  function Added(local: map<Hash, nat>, hashOf: nat -> Hash, v: seq<nat>): map<Hash, nat>
    decreases |v|
  {
    if v == [] then local
    else
      var h := hashOf(v[0]);
      Added(if h in local then local else local[h := v[0]], hashOf, v[1..])
  }

  predicate Keyed(local: map<Hash, nat>, hashOf: nat -> Hash) {
    forall h :: h in local ==> h == hashOf(local[h])
  }

  ghost predicate Injective(hashOf: nat -> Hash) {
    forall i, j :: hashOf(i) == hashOf(j) ==> i == j
  }

  lemma ValuesPut(local: map<Hash, nat>, h: Hash, i: nat)
    requires h !in local
    ensures local[h := i].Values == local.Values + {i}
  {
    forall x | x in local.Values ensures x in local[h := i].Values {
      var g :| g in local && local[g] == x;
      assert local[h := i][g] == x;
    }
    assert local[h := i][h] == i;
  }

  lemma ValuesDrop(local: map<Hash, nat>, hashOf: nat -> Hash, h: Hash)
    requires Keyed(local, hashOf) && h in local
    ensures (local - {h}).Values == local.Values - {local[h]}
    ensures local.Values == (local - {h}).Values + {local[h]}
  {
    var rest := local - {h};
    forall x | x in local.Values && x != local[h] ensures x in rest.Values {
      var g :| g in local && local[g] == x;
      assert rest[g] == x;
    }
  }

  /** With hashes that differ nothing is lost. */
  lemma {:induction false} AddedValues(local: map<Hash, nat>, hashOf: nat -> Hash, v: seq<nat>)
    requires Keyed(local, hashOf) && Injective(hashOf)
    ensures Keyed(Added(local, hashOf, v), hashOf)
    ensures Added(local, hashOf, v).Values == local.Values + Elements(v)
    decreases |v|
  {
    if v != [] {
      var h := hashOf(v[0]);
      var next := if h in local then local else local[h := v[0]];
      assert h in local ==> local[h] == v[0];
      if h !in local {
        ValuesPut(local, h, v[0]);
      }
      assert next.Values == local.Values + {v[0]};
      AddedValues(next, hashOf, v[1..]);
      assert v == [v[0]] + v[1..];
      assert Elements(v) == {v[0]} + Elements(v[1..]);
    }
  }

  lemma {:induction false} KeyedSize(local: map<Hash, nat>, hashOf: nat -> Hash)
    requires Keyed(local, hashOf)
    ensures |local.Values| == |local|
    decreases |local|
  {
    if local != map[] {
      var h :| h in local;
      var rest := local - {h};
      KeyedSize(rest, hashOf);
      ValuesDrop(local, hashOf, h);
      assert local == rest[h := local[h]];
    }
  }

  // ------------------------------------------------------------------ workers

  datatype Search = Runs(i: nat) | RunsDirectly | Parks

  class Task {
    const hash: Hash
    const hashOf: nat -> Hash
    var workFor: Function?
    var dealWith: Option<nat>
    var directRun: bool
    var localIMap: map<Hash, nat>
    var status: Status

    constructor (hash: Hash, hashOf: nat -> Hash, f: Function, i: nat)
      ensures this.hash == hash && this.hashOf == hashOf && workFor == f && localIMap == map[] && status == Neither
      ensures dealWith == (if Concurrent(f.func) then None else Some(i)) && directRun == !Concurrent(f.func)
    {
      this.hash, this.hashOf := hash, hashOf;
      workFor, localIMap, status := f, map[], Neither;
      dealWith := if Concurrent(f.func) then None else Some(i);
      directRun := !Concurrent(f.func);
    }

    /** One instance, whichever comes first in the map, and how many are left. */
    method TakeIFromILocalMap() returns (i: Option<nat>, left: nat)
      requires Keyed(localIMap, hashOf) && Injective(hashOf)
      modifies this`localIMap
      ensures Keyed(localIMap, hashOf) && left == |localIMap.Values|
      ensures old(localIMap).Values == {} ==> i == None && localIMap == old(localIMap)
      ensures old(localIMap).Values != {} ==>
        i.Some? && i.value in old(localIMap).Values && localIMap.Values == old(localIMap).Values - {i.value}
    {
      if |localIMap| == 0 {
        return None, 0;
      }
      assert localIMap.Keys != {};
      var h :| h in localIMap;
      var taken := localIMap[h];
      ValuesDrop(localIMap, hashOf, h);
      localIMap := localIMap - {h};
      KeyedSize(localIMap, hashOf);
      return Some(taken), |localIMap|;
    }

    method AddMultiI(iVector: seq<nat>)
      modifies this`localIMap
      ensures localIMap == Added(old(localIMap), hashOf, iVector)
    {
      for k := 0 to |iVector|
        invariant Added(localIMap, hashOf, iVector[k..]) == Added(old(localIMap), hashOf, iVector)
      {
        var h := hashOf(iVector[k]);
        assert iVector[k..][1..] == iVector[k + 1..];
        if h !in localIMap {
          localIMap := localIMap[h := iVector[k]];
        }
      }
    }

    /** Moves up to `count` instances of the function here. */
    method TryGetIFromF2T(f: Function, count: nat) returns (n: nat)
      requires Keyed(localIMap, hashOf) && Injective(hashOf)
      modifies this`localIMap, f`globalIQueue
      ensures var got := Pulled(old(f.globalIQueue), count);
        && n == |got| && f.globalIQueue == old(f.globalIQueue)[n..]
        && Keyed(localIMap, hashOf) && localIMap.Values == old(localIMap).Values + Elements(got)
    {
      if |f.globalIQueue| < 1 || count < 1 {
        assert Elements([]) == {};
        return 0;
      }
      var iVector := f.TryGetMultiI(count);
      AddMultiI(iVector);
      AddedValues(old(localIMap), hashOf, iVector);
      return |iVector|;
    }

    /** The worker's next instance of its concurrent function; without one it gives its capacity back. */
    method GetI(f: Function) returns (i: Option<nat>)
      requires Concurrent(f.func) && Keyed(localIMap, hashOf) && Injective(hashOf)
      modifies this`localIMap, f
      ensures Keyed(localIMap, hashOf)
      ensures TookOne(old(localIMap).Values, old(f.globalIQueue), f.func, i, localIMap.Values, f.globalIQueue)
      ensures f.restCap == old(f.restCap) - if i == None then f.func.limit else 0
    {
      hide Took, TookOne, Fetch, Pulled, Keyed, Injective;
      var half := f.func.limit / 2;
      var left;
      i, left := TakeIFromILocalMap();
      if left <= half {
        var n := TryGetIFromF2T(f, half);
        if n > 0 && i == None {
          NonEmptyElements(Pulled(old(f.globalIQueue), half));
          i, left := TakeIFromILocalMap();
        }
        if i == None {
          var _ := f.ScaleCap(0 - f.func.limit);
        }
      }
      if old(localIMap).Values != {} {
        TookFirst(old(localIMap).Values, old(f.globalIQueue), f.func, i.value);
      } else {
        TookLate(old(f.globalIQueue), f.func, i);
      }
    }

    /** What a worker does when it looks for an instance: run the one it was handed, take one, or park. */
    method GetInstance() returns (found: Search)
      requires workFor != null && Keyed(localIMap, hashOf) && Injective(hashOf)
      requires directRun && !Concurrent(workFor.func) ==> dealWith.Some?
      modifies this, workFor
      ensures workFor == old(workFor) && status == old(status)
      ensures Keyed(localIMap, hashOf)
      ensures !Concurrent(workFor.func) ==>
        && found == (if old(directRun) then RunsDirectly else Parks) && dealWith == old(dealWith) && !directRun
        && localIMap == old(localIMap)
        && workFor.globalIQueue == old(workFor.globalIQueue) && workFor.restCap == old(workFor.restCap)
      ensures Concurrent(workFor.func) ==>
        && directRun == old(directRun) && !found.RunsDirectly?
        && dealWith == (if found.Runs? then Some(found.i) else old(dealWith))
        && workFor.restCap == old(workFor.restCap) - (if found.Parks? then workFor.func.limit else 0)
        && TookOne(old(localIMap).Values, old(workFor.globalIQueue), workFor.func,
                   if found.Runs? then Some(found.i) else None, localIMap.Values, workFor.globalIQueue)
    {
      hide TookOne, Keyed, Injective;
      if dealWith.Some? && workFor != null && !Concurrent(workFor.func) && directRun {
        directRun := false;
        return RunsDirectly;
      }
      if !Concurrent(workFor.func) {
        return Parks;
      }
      var i := GetI(workFor);
      if i.Some? {
        dealWith := i;
        return Runs(i.value);
      }
      return Parks;
    }
  }

  /** The outcome of a fetch, as the protocol's step computes it. */
  ghost predicate Took(
    local: set<nat>, queue: seq<nat>, f: Func, pick: nat, taken: Option<nat>, local': set<nat>, queue': seq<nat>)
  {
    var got := Fetch(local, queue, Half(f), pick);
    && Choice(local, queue, Half(f), pick) && got.pulled <= |queue|
    && taken == got.taken && local' == got.local && queue' == queue[got.pulled..]
  }

  ghost predicate TookOne(
    local: set<nat>, queue: seq<nat>, f: Func, taken: Option<nat>, local': set<nat>, queue': seq<nat>)
  {
    exists pick :: Took(local, queue, f, pick, taken, local', queue')
  }

  lemma TookFirst(local: set<nat>, queue: seq<nat>, f: Func, pick: nat)
    requires pick in local
    ensures var left := local - {pick};
      var got := if |left| <= Half(f) then Pulled(queue, Half(f)) else [];
      && |got| <= |queue|
      && TookOne(local, queue, f, Some(pick), left + (if |left| <= Half(f) then Elements(got) else {}), queue[|got|..])
    ensures |local - {pick}| > Half(f) ==> TookOne(local, queue, f, Some(pick), local - {pick}, queue)
  {
    var left := local - {pick};
    var got := if |left| <= Half(f) then Pulled(queue, Half(f)) else [];
    assert queue[0..] == queue;
    assert left + {} == left;
    assert Took(local, queue, f, pick, Some(pick), left + (if |left| <= Half(f) then Elements(got) else {}),
                queue[|got|..]);
  }

  lemma TookLate(queue: seq<nat>, f: Func, i: Option<nat>)
    requires i == None <==> Pulled(queue, Half(f)) == []
    requires i.Some? ==> i.value in Pulled(queue, Half(f))
    ensures var got := Pulled(queue, Half(f));
      && |got| <= |queue|
      && TookOne({}, queue, f, i, if i.Some? then Elements(got) - {i.value} else Elements(got), queue[|got|..])
  {
    var got := Pulled(queue, Half(f));
    var pick := if i.Some? then i.value else 0;
    assert Took({}, queue, f, pick, i, if i.Some? then Elements(got) - {i.value} else Elements(got), queue[|got|..]);
  }

  lemma NonEmptyElements(s: seq<nat>)
    requires s != []
    ensures Elements(s) != {}
  {
    assert s[0] in Elements(s);
  }

  // ---------------------------------------------------------------- resources

  class Resource {
    var idleTask: seq<Task>
    var busyTask: map<Hash, Task>

    constructor ()
      ensures idleTask == [] && busyTask == map[]
    {
      idleTask, busyTask := [], map[];
    }

    method GetTFromIdle() returns (t: Task?)
      modifies this`idleTask, (if idleTask == [] then {} else {idleTask[0]})`status
      ensures old(idleTask) == [] ==> t == null && idleTask == []
      ensures old(idleTask) != [] ==>
        t == old(idleTask)[0] && idleTask == old(idleTask)[1..] && t.status == Neither
    {
      if idleTask == [] {
        return null;
      }
      t := idleTask[0];
      idleTask := idleTask[1..];
      t.status := Neither;
    }

    method PutT2Idle(t: Task)
      requires t.status == Neither
      modifies this`idleTask, t`status
      ensures t.status == Idle && idleTask == old(idleTask) + [t]
    {
      t.status := Idle;
      idleTask := idleTask + [t];
    }

    method RemoveTFromBusy(t: Task)
      requires t.status == Busy && t.hash in busyTask
      modifies this`busyTask, t`status, t`workFor, t`directRun
      ensures t.status == Neither && t.workFor == null && !t.directRun
      ensures busyTask == old(busyTask) - {t.hash}
    {
      t.status := Neither;
      busyTask := busyTask - {t.hash};
      t.workFor := null;
      t.directRun := false;
    }

    method PutT2Busy(t: Task)
      requires t.status == Neither && t.hash !in busyTask
      modifies this`busyTask, t`status
      ensures t.status == Busy && busyTask == old(busyTask)[t.hash := t]
    {
      t.status := Busy;
      busyTask := busyTask[t.hash := t];
    }

    /** A worker for an instance: an idle one, to be woken, or a new one. Either way it is busy for the function. */
    method GetTForI(i: nat, f: Function, newHash: Hash, hashOf: nat -> Hash) returns (t: Task, wake: bool)
      requires (if idleTask == [] then newHash else idleTask[0].hash) !in busyTask
      modifies this, if idleTask == [] then {} else {idleTask[0]}
      ensures wake <==> old(idleTask) != []
      ensures if wake then t == old(idleTask)[0] && idleTask == old(idleTask)[1..]
              else fresh(t) && t.hash == newHash && t.localIMap == map[] && idleTask == old(idleTask)
      ensures t.status == Busy && t.workFor == f && busyTask == old(busyTask)[t.hash := t]
      ensures !Concurrent(f.func) ==> t.dealWith == Some(i) && t.directRun
      ensures wake && Concurrent(f.func) ==>
        t.dealWith == old(idleTask[0].dealWith) && t.directRun == old(idleTask[0].directRun)
    {
      var idle := GetTFromIdle();
      if idle != null {
        t := idle;
        if !Concurrent(f.func) {
          t.dealWith := Some(i);
          t.directRun := true;
        }
        t.workFor := f;
        PutT2Busy(t);
        return t, true;
      }
      t := new Task(newHash, hashOf, f, i);
      PutT2Busy(t);
      return t, false;
    }
  }
}
