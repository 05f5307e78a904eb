/**
 The manager, the cache and the locks as objects that change in place. What shared and weak
 pointers know about each other is kept in a ledger.
 */
module ResourceObjects {
  import opened Basics
  import opened R = Resources

  function Occurrences(slots: seq<Option<Id>>, r: Id): nat {
    if slots == [] then 0
    else Occurrences(slots[..|slots| - 1], r) + (if slots[|slots| - 1] == Some(r) then 1 else 0)
  }

  lemma {:induction false} NoOccurrence(slots: seq<Option<Id>>, r: Id)
    requires Some(r) !in slots
    ensures Occurrences(slots, r) == 0
  {
    if slots != [] {
      NoOccurrence(slots[..|slots| - 1], r);
    }
  }

  lemma {:induction false} OneOccurrence(slots: seq<Option<Id>>, i: nat, r: Id)
    requires i < |slots| && slots[i] == Some(r)
    requires forall j :: 0 <= j < |slots| && slots[j] == Some(r) ==> j == i
    ensures Occurrences(slots, r) == 1
  {
    var front := slots[..|slots| - 1];
    if i == |slots| - 1 {
      NoOccurrence(front, r);
    } else {
      OneOccurrence(front, i, r);
    }
  }

  /** The resources of the cleared slots are the ones that stop being live. */
  lemma GoneAreRemoved<K>(w: World<K>, force: bool, gone: set<Id>)
    requires Inv(w)
    requires forall r :: r in gone ==>
      exists j :: 0 <= j < |w.owned| && Collectable(w, j, force) && w.owned[j] == Some(r)
    requires forall j :: 0 <= j < |w.owned| && Collectable(w, j, force) ==> w.owned[j].value in gone
    ensures gone == set r | r in w.objects && w.Live(r) && !Collect(w, force).Live(r)
  {
    forall r ensures r in gone <==> r in w.objects && w.Live(r) && !Collect(w, force).Live(r) {
      CollectedSlots(w, force, r);
      if r in gone {
        var j :| 0 <= j < |w.owned| && Collectable(w, j, force) && w.owned[j] == Some(r);
      } else if Some(r) in w.owned {
        var j :| 0 <= j < |w.owned| && w.owned[j] == Some(r);
      }
    }
  }

  /** The resources in the collectable ones of the first `n` slots. */
  ghost function Gone<K>(w: World<K>, force: bool, n: nat): set<Id>
    requires n <= |w.owned|
  {
    if n == 0 then {}
    else Gone(w, force, n - 1) + (if Collectable(w, n - 1, force) then {w.owned[n - 1].value} else {})
  }

  ghost function Cleared<K>(w: World<K>, force: bool, n: nat): nat
    requires n <= |w.owned|
  {
    if n == 0 then 0 else Cleared(w, force, n - 1) + (if Collectable(w, n - 1, force) then 1 else 0)
  }

  lemma {:induction false} GoneMembers<K>(w: World<K>, force: bool, n: nat, r: Id)
    requires n <= |w.owned|
    ensures r in Gone(w, force, n) <==> exists j :: 0 <= j < n && Collectable(w, j, force) && w.owned[j] == Some(r)
  {
    if n > 0 {
      GoneMembers(w, force, n - 1, r);
      if r in Gone(w, force, n) && r !in Gone(w, force, n - 1) {
        assert w.owned[n - 1] == Some(r);
      }
    }
  }

  lemma NotGoneBefore<K>(w: World<K>, force: bool, n: nat)
    requires Owned(w) && n < |w.owned| && w.owned[n].Some?
    ensures w.owned[n].value !in Gone(w, force, n)
  {
    var r := w.owned[n].value;
    GoneMembers(w, force, n, r);
    assert forall j :: 0 <= j < n ==> w.owned[j] != w.owned[n];
  }

  /** No resource is cleared twice. */
  lemma {:induction false} ClearedIsGone<K>(w: World<K>, force: bool, n: nat)
    requires Owned(w) && n <= |w.owned|
    ensures Cleared(w, force, n) == |Gone(w, force, n)|
  {
    if n > 0 {
      ClearedIsGone(w, force, n - 1);
      if Collectable(w, n - 1, force) {
        NotGoneBefore(w, force, n - 1);
      }
    }
  }

  /** The first `n` slots have been looked at. */
  ghost predicate Swept<K>(w: World<K>, force: bool, slots: seq<Option<Id>>, n: nat) {
    && n <= |slots| == |w.owned|
    && forall j :: 0 <= j < |slots| ==>
         slots[j] == if j < n && Collectable(w, j, force) then None else w.owned[j]
  }

  /** The use count of an occupied slot is one more than the locks on its resource. */
  lemma SweptSlotIsSoleOwner<K>(w: World<K>, force: bool, slots: seq<Option<Id>>, n: nat)
    requires Owned(w) && n < |slots| && Swept(w, force, slots, n)
    ensures slots[n] == w.owned[n]
    ensures slots[n].Some? ==> slots[n].value in w.objects && Occurrences(slots, slots[n].value) == 1
  {
    if slots[n].Some? {
      forall j | 0 <= j < |slots| && slots[j] == slots[n] ensures j == n {
        assert w.owned[j] == w.owned[n];
      }
      OneOccurrence(slots, n, slots[n].value);
    }
  }

  lemma SweepNext<K>(w: World<K>, force: bool, slots: seq<Option<Id>>, n: nat, freed: bool)
    requires Owned(w) && n < |slots| && Swept(w, force, slots, n)
    requires slots[n].Some? ==> slots[n].value in w.objects
    requires freed <==> && slots[n].Some?
                        && Occurrences(slots, slots[n].value) + w.locks[slots[n].value] == 1
                        && w.objects[slots[n].value].expireTime <= (if force then MAX_TIME else w.now)
    ensures freed <==> Collectable(w, n, force)
    ensures Swept(w, force, if freed then slots[n := None] else slots, n + 1)
  {
    SweptSlotIsSoleOwner(w, force, slots, n);
  }

  /** The number of cleared slots is the number of resources that stop being live. */
  lemma ClearedAreRemoved<K>(w: World<K>, force: bool)
    requires Inv(w)
    ensures Cleared(w, force, |w.owned|) == |set r | r in w.objects && w.Live(r) && !Collect(w, force).Live(r)|
  {
    var n := |w.owned|;
    var gone := Gone(w, force, n);
    forall r | r in gone ensures exists j :: 0 <= j < n && Collectable(w, j, force) && w.owned[j] == Some(r) {
      GoneMembers(w, force, n, r);
    }
    forall j | 0 <= j < n && Collectable(w, j, force) ensures w.owned[j].value in gone {
      GoneMembers(w, force, n, w.owned[j].value);
    }
    ClearedIsGone(w, force, n);
    GoneAreRemoved(w, force, gone);
  }

  /** The control blocks of shared ownership: the objects, the locks on them, the clock. */
  class Ledger {
    var now: int
    var objects: map<Id, Resource>
    var locks: multiset<Id>
    ghost var dropped: map<Id, Dropped>

    constructor (now: int)
      ensures this.now == now && objects == map[] && locks == multiset{} && dropped == map[]
    {
      this.now := now;
      objects, locks, dropped := map[], multiset{}, map[];
    }
  }

  class ResourceManager {
    const ledger: Ledger
    var slots: seq<Option<Id>>

    constructor (ledger: Ledger)
      ensures this.ledger == ledger && slots == []
    {
      this.ledger := ledger;
      slots := [];
    }

    function UseCount(r: Id): nat
      reads this, ledger
    {
      Occurrences(slots, r) + ledger.locks[r]
    }

    method Add(r: Id)
      modifies this
      ensures slots == Put(old(slots), FirstFree(old(slots)), Some(r))
    {
      var p := FirstFree(slots);
      if p == |slots| {
        slots := slots + [None];
      }
      slots := slots[p := Some(r)];
    }

    /** An occupied slot is cleared if nothing else refers to its resource, which has expired. */
    method CollectSlot(i: nat, now: int) returns (freed: bool)
      requires i < |slots| && (slots[i].Some? ==> slots[i].value in ledger.objects)
      modifies this
      ensures freed <==> old(slots[i].Some? && UseCount(slots[i].value) == 1
                             && ledger.objects[slots[i].value].expireTime <= now)
      ensures slots == if freed then old(slots)[i := None] else old(slots)
    {
      freed := false;
      if slots[i].Some? && UseCount(slots[i].value) == 1 {
        if ledger.objects[slots[i].value].expireTime <= now {
          slots := slots[i := None];
          freed := true;
        }
      }
    }

    method GarbageCollect<K>(force: bool, ghost w: World<K>) returns (count: nat)
      requires Owned(w) && w.owned == slots && w.now == ledger.now
      requires w.objects == ledger.objects && w.locks == ledger.locks
      modifies this
      ensures slots == Collect(w, force).owned
      ensures count == Cleared(w, force, |w.owned|)
    {
      var now := if force then MAX_TIME else ledger.now;
      count := 0;
      for i := 0 to |slots|
        invariant Swept(w, force, slots, i)
        invariant count == Cleared(w, force, i)
      {
        SweptSlotIsSoleOwner(w, force, slots, i);
        ghost var was := slots;
        var freed := CollectSlot(i, now);
        SweepNext(w, force, was, i, freed);
        if freed {
          count := count + 1;
        }
      }
    }
  }

  class ResourceCache<K(==)> {
    const manager: ResourceManager
    const ledger: Ledger
    var slots: seq<CacheSlot<K>>

    constructor (manager: ResourceManager)
      ensures this.manager == manager && ledger == manager.ledger && slots == []
    {
      this.manager := manager;
      this.ledger := manager.ledger;
      slots := [];
    }

    ghost function View(): World<K>
      reads this, manager, ledger
    {
      World(ledger.now, ledger.objects, manager.slots, slots, ledger.locks, ledger.dropped)
    }

    /** A weak reference that no longer leads anywhere. */
    predicate Expired(r: Id)
      reads manager, ledger
    {
      Some(r) !in manager.slots && r !in ledger.locks
    }

    method Find(key: K) returns (lock: Option<Id>)
      requires manager.ledger == ledger
      modifies ledger`locks
      ensures (View(), lock) == R.Find(old(View()), key)
    {
      var i := FirstKey(slots, key);
      if i == |slots| || Expired(slots[i].resource) {
        return None;
      }
      ledger.locks := ledger.locks + multiset{slots[i].resource};
      return Some(slots[i].resource);
    }

    /** `r` is a new object with the given age limit. */
    method Add(key: K, r: Id, maxAge: int)
      requires manager.ledger == ledger
      requires Inv(View()) && Enabled(View(), AddNew(key, r, maxAge))
      modifies this, manager, ledger
      ensures View() == R.Add(old(View()), key, r, maxAge)
    {
      ledger.objects := ledger.objects[r := Resource(maxAge, MIN_TIME)];
      var p := 0;
      while p < |slots| && !Expired(slots[p].resource)
        invariant p <= |slots|
        invariant FirstExpired(old(View()), 0) == FirstExpired(old(View()), p)
      {
        p := p + 1;
      }
      if p == |slots| {
        slots := slots + [CacheSlot(key, r)];
      } else {
        slots := slots[p := CacheSlot(key, r)];
      }
      manager.Add(r);
      ledger.locks := ledger.locks + multiset{r};
    }

    /** `r` and `maxAge` stand for what the factory would make; it runs only on a miss. */
    method FindOrCreate(key: K, r: Id, maxAge: int) returns (lock: Id)
      requires manager.ledger == ledger
      requires Inv(View()) && r !in ledger.objects && Age(maxAge)
      modifies this, manager, ledger
      ensures (View(), lock) == R.FindOrCreate(old(View()), key, r, maxAge)
    {
      var found := Find(key);
      if found.Some? {
        return found.value;
      }
      Add(key, r, maxAge);
      return r;
    }
  }

  /** A lock on a resource, or none. */
  class ResourceLock {
    const ledger: Ledger
    var resource: Option<Id>

    constructor (ledger: Ledger, resource: Option<Id>)
      ensures this.ledger == ledger && this.resource == resource
    {
      this.ledger, this.resource := ledger, resource;
    }

    method Reset()
      requires resource.Some? ==> resource.value in ledger.objects
      modifies ledger`objects
      ensures ledger.objects == if resource.None? then old(ledger.objects)
        else old(ledger.objects)[resource.value := old(ledger.objects)[resource.value].Touch(ledger.now)]
    {
      if resource.Some? {
        ledger.objects := ledger.objects[resource.value := ledger.objects[resource.value].Touch(ledger.now)];
      }
    }

    /** Destruction: touch the resource, then give up the ownership. */
    method Destroy<K>(ghost w: World<K>)
      requires resource.Some? ==> Enabled(w, Release(resource.value))
      requires w.now == ledger.now && w.objects == ledger.objects
      requires w.locks == ledger.locks && w.dropped == ledger.dropped
      modifies this, ledger
      ensures var w' := if old(resource).Some? then DropLock(w, old(resource).value) else w;
        && w' == w.(objects := ledger.objects, locks := ledger.locks, dropped := ledger.dropped)
      ensures resource == None
    {
      Reset();
      if resource.Some? {
        ledger.dropped := ledger.dropped[resource.value := Dropped(ledger.now, w.objects[resource.value].maxAge)];
        ledger.locks := ledger.locks - multiset{resource.value};
        resource := None;
      }
    }
  }
}
