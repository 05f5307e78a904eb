/**
 Shared resources: a manager that owns them, a cache that finds them by key through weak
 references kept in a sparse array, and locks that keep them alive and touch them when they
 are dropped.

 Ownership counts and the clock are part of the state: a resource is live while a manager
 slot or a lock holds it.
 */
module Resources {
  import opened Basics

  /** An identity of a resource object. */
  type Id = nat

  const NANOSECONDS: int := 1_000_000_000
  const MIN_TIME: int := -0x8000_0000_0000_0000
  const MAX_TIME: int := 0x7FFF_FFFF_FFFF_FFFF

  /** Clock readings far enough from the end of time for every 32-bit age to be added. */
  predicate ClockValue(t: int) {
    0 <= t <= MAX_TIME - 0x8000_0000 * NANOSECONDS
  }

  predicate Age(a: int) {
    -0x8000_0000 <= a < 0x8000_0000
  }

  datatype Resource = Resource(maxAge: int, expireTime: int) {
    function Touch(now: int): Resource {
      this.(expireTime := now + maxAge * NANOSECONDS)
    }
  }

  datatype CacheSlot<K> = CacheSlot(key: K, resource: Id)

  /** When a lock was dropped last, and the age limit at that time. */
  datatype Dropped = Dropped(time: int, maxAge: int)

  datatype World<K> = World(
    now: int,
    objects: map<Id, Resource>,
    owned: seq<Option<Id>>,        // manager slots
    cached: seq<CacheSlot<K>>,     // cache slots, weak
    locks: multiset<Id>,
    dropped: map<Id, Dropped>)
  {
    predicate Live(r: Id) {
      Some(r) in owned || r in locks
    }
  }

  // ---------------------------------------------------------------- operations

  function FirstKey<K(==)>(slots: seq<CacheSlot<K>>, key: K): (i: nat)
    ensures i <= |slots|
    ensures forall j :: 0 <= j < i ==> slots[j].key != key
    ensures i < |slots| ==> slots[i].key == key
  {
    if slots == [] || slots[0].key == key then 0 else 1 + FirstKey(slots[1..], key)
  }

  function FirstExpired<K>(w: World<K>, from: nat): (i: nat)
    requires from <= |w.cached|
    ensures from <= i <= |w.cached|
    ensures forall j :: from <= j < i ==> w.Live(w.cached[j].resource)
    ensures i < |w.cached| ==> !w.Live(w.cached[i].resource)
    decreases |w.cached| - from
  {
    if from == |w.cached| || !w.Live(w.cached[from].resource) then from else FirstExpired(w, from + 1)
  }

  function FirstFree(slots: seq<Option<Id>>): (i: nat)
    ensures i <= |slots|
    ensures forall j :: 0 <= j < i ==> slots[j].Some?
    ensures i < |slots| ==> slots[i].None?
  {
    if slots == [] || slots[0].None? then 0 else 1 + FirstFree(slots[1..])
  }

  function Put<T>(s: seq<T>, i: nat, x: T): seq<T>
    requires i <= |s|
  {
    if i < |s| then s[i := x] else s + [x]
  }

  /** Locking the first slot with the key; nothing if there is none or it is stale. */
  function Find<K(==)>(w: World<K>, key: K): (World<K>, Option<Id>) {
    var i := FirstKey(w.cached, key);
    if i == |w.cached| || !w.Live(w.cached[i].resource) then (w, None)
    else (w.(locks := w.locks + multiset{w.cached[i].resource}), Some(w.cached[i].resource))
  }

  /** A new object is stored under the key and returned locked. */
  function Add<K>(w: World<K>, key: K, r: Id, maxAge: int): World<K> {
    w.(objects := w.objects[r := Resource(maxAge, MIN_TIME)],
       cached := Put(w.cached, FirstExpired(w, 0), CacheSlot(key, r)),
       owned := Put(w.owned, FirstFree(w.owned), Some(r)),
       locks := w.locks + multiset{r})
  }

  function FindOrCreate<K(==)>(w: World<K>, key: K, r: Id, maxAge: int): (World<K>, Id) {
    var (found, lock) := Find(w, key);
    if lock.Some? then (found, lock.value) else (Add(w, key, r, maxAge), r)
  }

  function DropLock<K>(w: World<K>, r: Id): World<K>
    requires r in w.locks && r in w.objects
  {
    w.(objects := w.objects[r := w.objects[r].Touch(w.now)],
       dropped := w.dropped[r := Dropped(w.now, w.objects[r].maxAge)],
       locks := w.locks - multiset{r})
  }

  predicate Collectable<K>(w: World<K>, i: nat, force: bool)
    requires i < |w.owned|
  {
    && w.owned[i].Some?
    && w.owned[i].value in w.objects
    && w.locks[w.owned[i].value] == 0
    && w.objects[w.owned[i].value].expireTime <= (if force then MAX_TIME else w.now)
  }

  function Collect<K>(w: World<K>, force: bool): World<K> {
    w.(owned := seq(|w.owned|, i requires 0 <= i < |w.owned| =>
                      if Collectable(w, i, force) then None else w.owned[i]))
  }

  datatype Action<K> =
    | TickTo(now: int)
    | LockFound(key: K)
    | AddNew(key: K, resource: Id, maxAge: int)
    | FindOrCreateNew(key: K, resource: Id, maxAge: int)
    | CopyLock(resource: Id)
    | Release(resource: Id)
    | Reset(resource: Id)
    | SetMaxAge(resource: Id, maxAge: int)
    | GarbageCollect(force: bool)

  predicate Enabled<K(==)>(w: World<K>, a: Action<K>) {
    match a
    case TickTo(now) => w.now <= now && ClockValue(now)
    case LockFound(_) => true
    case AddNew(key, r, age) => Find(w, key).1.None? && r !in w.objects && Age(age)
    case FindOrCreateNew(_, r, age) => r !in w.objects && Age(age)
    case CopyLock(r) => r in w.locks
    case Release(r) => r in w.locks && r in w.objects
    case Reset(r) => r in w.locks && r in w.objects
    case SetMaxAge(r, age) => r in w.locks && r in w.objects && Age(age)
    case GarbageCollect(_) => true
  }

  function Next<K(==)>(w: World<K>, a: Action<K>): World<K>
    requires Enabled(w, a)
  {
    match a
    case TickTo(now) => w.(now := now)
    case LockFound(key) => Find(w, key).0
    case AddNew(key, r, age) => Add(w, key, r, age)
    case FindOrCreateNew(key, r, age) => FindOrCreate(w, key, r, age).0
    case CopyLock(r) => w.(locks := w.locks + multiset{r})
    case Release(r) => DropLock(w, r)
    case Reset(r) => w.(objects := w.objects[r := w.objects[r].Touch(w.now)])
    case SetMaxAge(r, age) => w.(objects := w.objects[r := w.objects[r].(maxAge := age)])
    case GarbageCollect(force) => Collect(w, force)
  }

  function Init<K>(now: int): World<K> {
    World(now, map[], [], [], multiset{}, map[])
  }

  // ---------------------------------------------------------------- invariants

  /** Every live resource sits in exactly one manager slot. */
  ghost predicate Owned<K>(w: World<K>) {
    && (forall i, j :: 0 <= i < j < |w.owned| && w.owned[i].Some? ==> w.owned[i] != w.owned[j])
    && (forall r :: r in w.locks ==> Some(r) in w.owned)
    && (forall i :: 0 <= i < |w.owned| && w.owned[i].Some? ==> w.owned[i].value in w.objects)
  }

  ghost predicate Holds(owned: seq<Option<Id>>, r: Id) {
    exists i :: 0 <= i < |owned| && owned[i] == Some(r)
  }

  ghost predicate Caches<K>(cached: seq<CacheSlot<K>>, r: Id) {
    exists i :: 0 <= i < |cached| && cached[i].resource == r
  }

  /** No live slot is preceded by a slot with its key or its resource. */
  ghost predicate Coherent<K>(w: World<K>) {
    && (forall j :: 0 <= j < |w.cached| ==> w.cached[j].resource in w.objects)
    && (forall i, j :: 0 <= i < j < |w.cached| && w.Live(w.cached[j].resource) ==>
          w.cached[i].key != w.cached[j].key && w.cached[i].resource != w.cached[j].resource)
  }

  /** Ages and times: an owned resource without a lock was dropped, and expires then. */
  ghost predicate Timed<K>(w: World<K>) {
    && ClockValue(w.now)
    && (forall r :: r in w.objects ==>
          Age(w.objects[r].maxAge) && MIN_TIME <= w.objects[r].expireTime <= MAX_TIME)
    && (forall r :: w.Live(r) && r !in w.locks ==>
          r in w.objects && r in w.dropped && w.dropped[r].time <= w.now
          && w.objects[r].expireTime == w.dropped[r].time + w.dropped[r].maxAge * NANOSECONDS)
  }

  ghost predicate Inv<K>(w: World<K>) {
    Owned(w) && Coherent(w) && Timed(w)
  }

  lemma InitInv<K>(now: int)
    requires ClockValue(now)
    ensures Inv(Init<K>(now))
  {
  }

  /** Filling the first free slot adds one resource. */
  lemma OwnedByAdding(owned: seq<Option<Id>>, r: Id, s: Id)
    ensures Some(s) in Put(owned, FirstFree(owned), Some(r)) <==> Some(s) in owned || s == r
  {
    var p := FirstFree(owned);
    assert Put(owned, p, Some(r))[p] == Some(r);
    if Some(s) in owned {
      var i :| 0 <= i < |owned| && owned[i] == Some(s);
      assert Put(owned, p, Some(r))[i] == Some(s);
    }
  }

  lemma SlotsByAdding(owned: seq<Option<Id>>, r: Id)
    requires Some(r) !in owned
    requires forall i, j :: 0 <= i < j < |owned| && owned[i].Some? ==> owned[i] != owned[j]
    ensures var put := Put(owned, FirstFree(owned), Some(r));
      forall i, j :: 0 <= i < j < |put| && put[i].Some? ==> put[i] != put[j]
  {
  }

  lemma AddMakesLive<K>(w: World<K>, key: K, r: Id, maxAge: int)
    ensures forall s :: Add(w, key, r, maxAge).Live(s) <==> w.Live(s) || s == r
  {
    forall s ensures Add(w, key, r, maxAge).Live(s) <==> w.Live(s) || s == r {
      OwnedByAdding(w.owned, r, s);
    }
  }

  lemma AddKeepsOwned<K>(w: World<K>, key: K, r: Id, maxAge: int)
    requires Owned(w) && r !in w.objects
    ensures Owned(Add(w, key, r, maxAge))
  {
    assert Some(r) !in w.owned;
    forall s | s in Add(w, key, r, maxAge).locks ensures Some(s) in Add(w, key, r, maxAge).owned {
      OwnedByAdding(w.owned, r, s);
    }
    SlotsByAdding(w.owned, r);
  }

  /** The new slot: nothing before it has the key, because everything before it is live. */
  lemma NoKeyBeforeNewSlot<K>(w: World<K>, key: K, i: nat)
    requires Find(w, key).1.None? && i < FirstExpired(w, 0)
    ensures w.cached[i].key != key
  {
    var f := FirstKey(w.cached, key);
    assert w.cached[i].key == key ==> f <= i;
  }

  /** Nothing live after it has the key, because that would have been found. */
  lemma NoLiveKeyAfterNewSlot<K>(w: World<K>, key: K, j: nat)
    requires Coherent(w) && Find(w, key).1.None?
    requires j < |w.cached| && w.Live(w.cached[j].resource)
    ensures w.cached[j].key != key
  {
    var f := FirstKey(w.cached, key);
    assert w.cached[j].key == key ==> f <= j;
  }

  lemma AddKeepsCoherent<K>(w: World<K>, key: K, r: Id, maxAge: int)
    requires Inv(w) && Enabled(w, AddNew(key, r, maxAge))
    ensures Coherent(Add(w, key, r, maxAge))
  {
    var w' := Add(w, key, r, maxAge);
    AddMakesLive(w, key, r, maxAge);
    var p := FirstExpired(w, 0);
    assert w'.cached[p] == CacheSlot(key, r);
    forall i, j | 0 <= i < j < |w'.cached| && w'.Live(w'.cached[j].resource)
      ensures w'.cached[i].key != w'.cached[j].key && w'.cached[i].resource != w'.cached[j].resource
    {
      if j == p {
        NoKeyBeforeNewSlot(w, key, i);
      } else if i == p {
        NoLiveKeyAfterNewSlot(w, key, j);
      }
    }
  }

  lemma AddKeepsInv<K>(w: World<K>, key: K, r: Id, maxAge: int)
    requires Inv(w) && Enabled(w, AddNew(key, r, maxAge))
    ensures Inv(Add(w, key, r, maxAge))
  {
    AddKeepsOwned(w, key, r, maxAge);
    AddMakesLive(w, key, r, maxAge);
    AddKeepsCoherent(w, key, r, maxAge);
  }

  /** Losing live resources never breaks coherence. */
  lemma FewerLiveKeepCoherent<K>(w: World<K>, w': World<K>)
    requires Coherent(w) && w'.cached == w.cached && w.objects.Keys <= w'.objects.Keys
    requires forall r :: w'.Live(r) ==> w.Live(r)
    ensures Coherent(w')
  {
  }

  lemma FindKeepsInv<K>(w: World<K>, key: K)
    requires Inv(w)
    ensures Inv(Find(w, key).0)
  {
    FewerLiveKeepCoherent(w, Find(w, key).0);
  }

  lemma DropKeepsInv<K>(w: World<K>, r: Id)
    requires Inv(w) && Enabled(w, Release(r))
    ensures Inv(DropLock(w, r))
  {
    FewerLiveKeepCoherent(w, DropLock(w, r));
  }

  /** A locked resource stays, and a slot is cleared only if it is collectable. */
  lemma CollectedSlots<K>(w: World<K>, force: bool, r: Id)
    requires Owned(w) && Timed(w)
    ensures var w' := Collect(w, force);
      Some(r) in w'.owned <==>
        Some(r) in w.owned && !(w.locks[r] == 0 && (force || w.objects[r].expireTime <= w.now))
  {
    var w' := Collect(w, force);
    if Some(r) in w.owned {
      var i :| 0 <= i < |w.owned| && w.owned[i] == Some(r);
      assert w'.owned[i] == if Collectable(w, i, force) then None else Some(r);
      if Some(r) in w'.owned {
        var j :| 0 <= j < |w'.owned| && w'.owned[j] == Some(r);
        assert i == j;
      }
    }
  }

  lemma CollectKeepsInv<K>(w: World<K>, force: bool)
    requires Inv(w)
    ensures Inv(Collect(w, force))
  {
    var w' := Collect(w, force);
    forall r ensures w'.Live(r) ==> w.Live(r)
             ensures r in w'.locks ==> Some(r) in w'.owned {
      CollectedSlots(w, force, r);
    }
    FewerLiveKeepCoherent(w, w');
  }

  lemma FindOrCreateKeepsInv<K>(w: World<K>, key: K, r: Id, maxAge: int)
    requires Inv(w) && Enabled(w, FindOrCreateNew(key, r, maxAge))
    ensures Inv(FindOrCreate(w, key, r, maxAge).0)
  {
    FindKeepsInv(w, key);
    if Find(w, key).1.None? {
      AddKeepsInv(w, key, r, maxAge);
    }
  }

  lemma TimeKeepsInv<K>(w: World<K>, a: Action<K>)
    requires Inv(w) && Enabled(w, a) && (a.TickTo? || a.CopyLock?)
    ensures Inv(Next(w, a))
  {
    FewerLiveKeepCoherent(w, Next(w, a));
  }

  lemma HolderKeepsInv<K>(w: World<K>, a: Action<K>)
    requires Inv(w) && Enabled(w, a) && (a.Reset? || a.SetMaxAge?)
    ensures Inv(Next(w, a))
  {
    FewerLiveKeepCoherent(w, Next(w, a));
  }

  lemma NextKeepsInv<K>(w: World<K>, a: Action<K>)
    requires Inv(w) && Enabled(w, a)
    ensures Inv(Next(w, a))
  {
    match a {
      case LockFound(key) => FindKeepsInv(w, key);
      case AddNew(key, r, age) => AddKeepsInv(w, key, r, age);
      case FindOrCreateNew(key, r, age) => FindOrCreateKeepsInv(w, key, r, age);
      case Release(r) => DropKeepsInv(w, r);
      case GarbageCollect(force) => CollectKeepsInv(w, force);
      case Reset(_) => HolderKeepsInv(w, a);
      case SetMaxAge(_, _) => HolderKeepsInv(w, a);
      case _ => TimeKeepsInv(w, a);
    }
  }

  // ---------------------------------------------------------------- several caches

  /** Caches that come and go and share one manager, which stays. `common` is everything but
      the caches and has no slots of its own. `made` counts the caches made so far, and `home`
      records which of them a resource was made for. */
  datatype Shared<K> = Shared(
    common: World<K>,
    caches: map<nat, seq<CacheSlot<K>>>,
    made: nat,
    home: map<Id, nat>)
  {
    /** What one cache sees. */
    function In(c: nat): World<K>
      requires c in caches
    {
      common.(cached := caches[c])
    }
  }

  /** `At` is what a cache does, `Outside` what happens to locks, the manager and the clock. */
  datatype SharedAction<K> =
    | NewCache
    | DropCache(cache: nat)
    | At(cache: nat, action: Action<K>)
    | Outside(action: Action<K>)

  predicate OfCache<K>(a: Action<K>) {
    a.LockFound? || a.AddNew? || a.FindOrCreateNew?
  }

  predicate SharedEnabled<K(==)>(s: Shared<K>, a: SharedAction<K>) {
    match a
    case NewCache => true
    case DropCache(c) => c in s.caches
    case At(c, action) => c in s.caches && OfCache(action) && Enabled(s.In(c), action)
    case Outside(action) => !OfCache(action) && Enabled(s.common, action)
  }

  predicate MakesNew<K(==)>(w: World<K>, a: Action<K>) {
    a.AddNew? || (a.FindOrCreateNew? && Find(w, a.key).1.None?)
  }

  function SharedNext<K(==)>(s: Shared<K>, a: SharedAction<K>): Shared<K>
    requires SharedEnabled(s, a)
  {
    match a
    case NewCache => s.(caches := s.caches[s.made := []], made := s.made + 1)
    case DropCache(c) => s.(caches := s.caches - {c})
    case At(c, action) =>
      var w := Next(s.In(c), action);
      s.(common := w.(cached := []),
         caches := s.caches[c := w.cached],
         home := if MakesNew(s.In(c), action) then s.home[action.resource := c] else s.home)
    case Outside(action) => s.(common := Next(s.common, action))
  }

  function SharedInit<K>(now: int): Shared<K> {
    Shared(Init(now), map[], 0, map[])
  }

  ghost predicate InCache<K>(s: Shared<K>, c: nat, r: Id) {
    c in s.caches && Caches(s.caches[c], r)
  }

  /** A live resource was made for some cache, and is there as long as that cache exists. */
  ghost predicate Homed<K>(s: Shared<K>, r: Id) {
    r in s.home && s.home[r] < s.made && (s.home[r] in s.caches ==> InCache(s, s.home[r], r))
  }

  /** And it is in no other cache. */
  ghost predicate Placed<K>(s: Shared<K>) {
    && (forall r :: s.common.Live(r) ==> Homed(s, r))
    && (forall c, r :: InCache(s, c, r) && s.common.Live(r) ==> r in s.home && s.home[r] == c)
  }

  ghost predicate SharedInv<K>(s: Shared<K>) {
    && Inv(s.common) && s.common.cached == []
    && (forall c :: c in s.caches ==> c < s.made && Coherent(s.In(c)))
    && Placed(s)
  }

  lemma OthersMakeNothingLive<K>(w: World<K>, a: Action<K>, r: Id)
    requires Inv(w) && Enabled(w, a) && !MakesNew(w, a)
    ensures Next(w, a).Live(r) ==> w.Live(r)
  {
    if a.GarbageCollect? {
      CollectedSlots(w, a.force, r);
    }
  }

  /** Only a resource that did not exist before becomes live, and it gets a slot. */
  lemma NewLiveIsFresh<K>(w: World<K>, a: Action<K>, r: Id)
    requires Inv(w) && Enabled(w, a) && Next(w, a).Live(r) && !w.Live(r)
    ensures MakesNew(w, a) && r == a.resource && r !in w.objects && Caches(Next(w, a).cached, r)
  {
    if MakesNew(w, a) {
      AddMakesLive(w, a.key, a.resource, a.maxAge);
      assert Next(w, a).cached[FirstExpired(w, 0)] == CacheSlot(a.key, a.resource);
    } else {
      OthersMakeNothingLive(w, a, r);
    }
  }

  /** A live resource that stays live keeps its slot, and no other old one gets a slot. */
  lemma SlotsOfLiveStay<K>(w: World<K>, a: Action<K>, r: Id)
    requires Inv(w) && Enabled(w, a) && w.Live(r)
    ensures Next(w, a).Live(r) ==> (Caches(Next(w, a).cached, r) <==> Caches(w.cached, r))
    ensures MakesNew(w, a) ==> r != a.resource
  {
    var w' := Next(w, a);
    assert r in w.objects;
    if MakesNew(w, a) {
      var p := FirstExpired(w, 0);
      if i :| 0 <= i < |w.cached| && w.cached[i].resource == r {
        assert i != p && w'.cached[i].resource == r;
      }
      if i :| 0 <= i < |w'.cached| && w'.cached[i].resource == r {
        assert i != p && w.cached[i].resource == r;
      }
    }
  }

  /** The slots of a cache that has no part in a step stay coherent. */
  lemma OtherCachesStay<K>(w: World<K>, a: Action<K>, slots: seq<CacheSlot<K>>)
    requires Inv(w) && Enabled(w, a) && Coherent(w.(cached := slots))
    ensures Coherent(Next(w, a).(cached := slots))
  {
    var v, v' := w.(cached := slots), Next(w, a).(cached := slots);
    forall j | 0 <= j < |slots|
      ensures slots[j].resource in v'.objects
      ensures v'.Live(slots[j].resource) ==> v.Live(slots[j].resource)
    {
      var r := slots[j].resource;
      assert v.cached[j].resource in v.objects;
      ObjectsStay(w, a);
      if Next(w, a).Live(r) && !w.Live(r) {
        NewLiveIsFresh(w, a, r);
      }
    }
  }

  lemma ObjectsStay<K>(w: World<K>, a: Action<K>)
    requires Enabled(w, a)
    ensures w.objects.Keys <= Next(w, a).objects.Keys
  {
  }

  lemma FreshIsNowhere<K>(s: Shared<K>, c: nat, r: Id)
    requires SharedInv(s) && r !in s.common.objects
    ensures !InCache(s, c, r)
  {
    if c in s.caches {
      assert Coherent(s.In(c));
    }
  }

  /** What a step of a cache, from `w` to `w'`, does with a resource that is live after it: it
      keeps its slot, or it is the resource just made and gets one. */
  ghost predicate KeepsOrMakes<K>(w: World<K>, w': World<K>, made: Option<Id>, r: Id) {
    if w.Live(r) then made != Some(r) && (Caches(w'.cached, r) <==> Caches(w.cached, r))
    else made == Some(r) && r !in w.objects && Caches(w'.cached, r)
  }

  function Made<K(==)>(w: World<K>, a: Action<K>): Option<Id> {
    if MakesNew(w, a) then Some(a.resource) else None
  }

  lemma StepKeepsOrMakes<K>(w: World<K>, a: Action<K>, r: Id)
    requires Inv(w) && Enabled(w, a) && Next(w, a).Live(r)
    ensures KeepsOrMakes(w, Next(w, a), Made(w, a), r)
  {
    if w.Live(r) {
      SlotsOfLiveStay(w, a, r);
    } else {
      NewLiveIsFresh(w, a, r);
    }
  }

  /** The state after a step of the cache `c` that made something or not. */
  ghost function Updated<K>(s: Shared<K>, c: nat, w': World<K>, made: Option<Id>): Shared<K> {
    s.(common := w'.(cached := []),
       caches := s.caches[c := w'.cached],
       home := if made.Some? then s.home[made.value := c] else s.home)
  }

  lemma StaysHomed<K>(s: Shared<K>, c: nat, w': World<K>, made: Option<Id>, r: Id)
    requires SharedInv(s) && c in s.caches && KeepsOrMakes(s.In(c), w', made, r)
    ensures Homed(Updated(s, c, w', made), r)
  {
    assert s.In(c).Live(r) <==> s.common.Live(r);
    if s.common.Live(r) {
      assert Homed(s, r);
    }
  }

  /** A live resource is in a cache only if it was made for that cache. */
  lemma CachedIsHome<K>(s: Shared<K>, c: nat, w': World<K>, made: Option<Id>, d: nat, r: Id)
    requires SharedInv(s) && c in s.caches && KeepsOrMakes(s.In(c), w', made, r)
    requires InCache(Updated(s, c, w', made), d, r)
    ensures var s' := Updated(s, c, w', made); r in s'.home && s'.home[r] == d
  {
    assert s.In(c).Live(r) <==> s.common.Live(r);
    if s.common.Live(r) {
      assert InCache(s, d, r);
    } else {
      FreshIsNowhere(s, d, r);
    }
  }

  lemma AtKeepsPlaces<K>(s: Shared<K>, c: nat, a: Action<K>)
    requires SharedInv(s) && c in s.caches && Enabled(s.In(c), a) && Inv(s.In(c))
    ensures Placed(Updated(s, c, Next(s.In(c), a), Made(s.In(c), a)))
  {
    var w, w', made := s.In(c), Next(s.In(c), a), Made(s.In(c), a);
    var s' := Updated(s, c, w', made);
    forall r | s'.common.Live(r) ensures Homed(s', r) {
      StepKeepsOrMakes(w, a, r);
      StaysHomed(s, c, w', made, r);
    }
    forall d, r | InCache(s', d, r) && s'.common.Live(r) ensures r in s'.home && s'.home[r] == d {
      StepKeepsOrMakes(w, a, r);
      CachedIsHome(s, c, w', made, d, r);
    }
  }

  lemma AtKeepsCoherent<K>(s: Shared<K>, c: nat, a: Action<K>, d: nat)
    requires SharedInv(s) && c in s.caches && Enabled(s.In(c), a) && Inv(s.In(c))
    requires d in s.caches && d != c
    ensures Coherent(Updated(s, c, Next(s.In(c), a), Made(s.In(c), a)).In(d))
  {
    assert s.In(c).(cached := s.caches[d]) == s.In(d);
    OtherCachesStay(s.In(c), a, s.caches[d]);
  }

  lemma UpdatedKeepsInv<K>(s: Shared<K>, c: nat, w': World<K>, made: Option<Id>)
    requires SharedInv(s) && c in s.caches && Inv(w')
    requires Placed(Updated(s, c, w', made))
    requires forall d :: d in s.caches && d != c ==> Coherent(Updated(s, c, w', made).In(d))
    ensures SharedInv(Updated(s, c, w', made))
  {
    var s' := Updated(s, c, w', made);
    assert s'.In(c) == w';
    forall d | d in s'.caches ensures d < s'.made && Coherent(s'.In(d)) {
      assert d in s.caches;
    }
  }

  lemma UpdatedByAt<K>(s: Shared<K>, c: nat, a: Action<K>)
    requires SharedInv(s) && c in s.caches && Enabled(s.In(c), a)
    ensures SharedInv(Updated(s, c, Next(s.In(c), a), Made(s.In(c), a)))
  {
    NextKeepsInv(s.In(c), a);
    AtKeepsPlaces(s, c, a);
    var w', made := Next(s.In(c), a), Made(s.In(c), a);
    forall d | d in s.caches && d != c ensures Coherent(Updated(s, c, w', made).In(d)) {
      AtKeepsCoherent(s, c, a, d);
    }
    UpdatedKeepsInv(s, c, w', made);
  }

  lemma AtKeepsInv<K>(s: Shared<K>, c: nat, a: Action<K>)
    requires SharedInv(s) && SharedEnabled(s, At(c, a))
    ensures SharedInv(SharedNext(s, At(c, a)))
  {
    UpdatedByAt(s, c, a);
    assert SharedNext(s, At(c, a)) == Updated(s, c, Next(s.In(c), a), Made(s.In(c), a));
  }

  lemma OutsideKeepsInv<K>(s: Shared<K>, a: Action<K>)
    requires SharedInv(s) && SharedEnabled(s, Outside(a))
    ensures SharedInv(SharedNext(s, Outside(a)))
  {
    var s' := SharedNext(s, Outside(a));
    NextKeepsInv(s.common, a);
    forall d | d in s'.caches ensures d < s'.made && Coherent(s'.In(d)) {
      assert s.common.(cached := s.caches[d]) == s.In(d);
      OtherCachesStay(s.common, a, s.caches[d]);
    }
    forall r | s'.common.Live(r) ensures s.common.Live(r) && Homed(s', r) {
      OthersMakeNothingLive(s.common, a, r);
      assert Homed(s, r) && (InCache(s, s.home[r], r) ==> InCache(s', s.home[r], r));
    }
    forall d, r | InCache(s', d, r) && s'.common.Live(r) ensures r in s'.home && s'.home[r] == d {
      assert InCache(s, d, r);
    }
  }

  /** Making and destroying a cache changes nothing for the others. */
  lemma CachesComeAndGo<K>(s: Shared<K>, a: SharedAction<K>)
    requires SharedInv(s) && SharedEnabled(s, a) && (a.NewCache? || a.DropCache?)
    ensures SharedInv(SharedNext(s, a))
  {
    var s' := SharedNext(s, a);
    forall c | c in s'.caches ensures c < s'.made && Coherent(s'.In(c)) {
      if c in s.caches {
        assert s'.In(c) == s.In(c);
      }
    }
    forall c, r | InCache(s', c, r) ensures InCache(s, c, r) {
    }
    forall r | s'.common.Live(r) ensures Homed(s', r) {
      assert Homed(s, r);
    }
  }

  lemma SharedNextKeepsInv<K>(s: Shared<K>, a: SharedAction<K>)
    requires SharedInv(s) && SharedEnabled(s, a)
    ensures SharedInv(SharedNext(s, a))
  {
    match a {
      case At(c, action) => AtKeepsInv(s, c, action);
      case Outside(action) => OutsideKeepsInv(s, action);
      case _ => CachesComeAndGo(s, a);
    }
  }

  ghost predicate IsRun<K>(s: Shared<K>, run: seq<SharedAction<K>>)
    decreases |run|
  {
    run == [] || (SharedEnabled(s, run[0]) && IsRun(SharedNext(s, run[0]), run[1..]))
  }

  ghost function After<K>(s: Shared<K>, run: seq<SharedAction<K>>): Shared<K>
    requires IsRun(s, run)
    decreases |run|
  {
    if run == [] then s else After(SharedNext(s, run[0]), run[1..])
  }

  lemma {:induction false} RunKeepsInv<K>(s: Shared<K>, run: seq<SharedAction<K>>)
    requires SharedInv(s) && IsRun(s, run)
    ensures SharedInv(After(s, run))
    decreases |run|
  {
    if run != [] {
      SharedNextKeepsInv(s, run[0]);
      RunKeepsInv(SharedNext(s, run[0]), run[1..]);
    }
  }

  lemma ReachedKeepsInv<K>(now: int, run: seq<SharedAction<K>>)
    requires ClockValue(now) && IsRun(SharedInit(now), run)
    ensures SharedInv(After(SharedInit(now), run))
  {
    RunKeepsInv(SharedInit(now), run);
  }

  // ---------------------------------------------------------------- main results

  ghost predicate Stored<K>(w: World<K>, key: K, r: Id) {
    w.Live(r) && exists i :: 0 <= i < |w.cached| && w.cached[i] == CacheSlot(key, r)
  }

  lemma FindIsLookup<K>(w: World<K>, key: K, r: Id)
    requires Inv(w)
    ensures Find(w, key).1 == Some(r) <==> Stored(w, key, r)
  {
    var f := FirstKey(w.cached, key);
    if Stored(w, key, r) {
      var i :| 0 <= i < |w.cached| && w.cached[i] == CacheSlot(key, r);
      assert f <= i;
    } else if f < |w.cached| && w.cached[f].resource == r {
      assert w.cached[f] == CacheSlot(key, r);
    }
  }

  lemma StoredOnce<K>(s: Shared<K>, c: nat, d: nat, key: K, key': K, r: Id)
    requires SharedInv(s) && c in s.caches && d in s.caches
    requires Stored(s.In(c), key, r) && Stored(s.In(d), key', r)
    ensures c == d && key == key'
  {
    assert s.common.Live(r) && InCache(s, c, r) && InCache(s, d, r);
    var w := s.In(c);
    var i :| 0 <= i < |w.cached| && w.cached[i] == CacheSlot(key, r);
    var j :| 0 <= j < |w.cached| && w.cached[j] == CacheSlot(key', r);
    assert !(i < j) && !(j < i);
  }

  /** Cache coherence in every run of any number of caches on one manager: at most one live
      resource per key of a cache, every live resource in at most one cache under exactly one
      key, and `find` returns exactly it. */
  lemma CacheCoherence<K>(now: int, run: seq<SharedAction<K>>, c: nat, d: nat, key: K, key': K, r: Id, r': Id)
    requires ClockValue(now) && IsRun(SharedInit(now), run)
    requires c in After(SharedInit(now), run).caches && d in After(SharedInit(now), run).caches
    ensures var s := After(SharedInit(now), run);
      && (Find(s.In(c), key).1 == Some(r) <==> Stored(s.In(c), key, r))
      && (Stored(s.In(c), key, r) && Stored(s.In(c), key, r') ==> r == r')
      && (Stored(s.In(c), key, r) && Stored(s.In(d), key', r) ==> c == d && key == key')
  {
    ReachedKeepsInv(now, run);
    var s := After(SharedInit(now), run);
    FindIsLookup(s.In(c), key, r);
    FindIsLookup(s.In(c), key, r');
    if Stored(s.In(c), key, r) && Stored(s.In(d), key', r) {
      StoredOnce(s, c, d, key, key', r);
    }
  }

  ghost predicate FoundIn<K>(s: Shared<K>, c: nat, key: K, r: Id) {
    c in s.caches && Find(s.In(c), key).1 == Some(r)
  }

  lemma HomeFinds<K>(s: Shared<K>, r: Id) returns (key: K)
    requires SharedInv(s) && s.common.Live(r) && r in s.home && InCache(s, s.home[r], r)
    ensures FoundIn(s, s.home[r], key, r)
  {
    var w := s.In(s.home[r]);
    var i :| 0 <= i < |w.cached| && w.cached[i].resource == r;
    key := w.cached[i].key;
    assert Stored(w, key, r);
    FindIsLookup(w, key, r);
  }

  lemma FoundIsHome<K>(s: Shared<K>, c: nat, key: K, r: Id)
    requires SharedInv(s) && FoundIn(s, c, key, r)
    ensures r in s.home && c == s.home[r]
  {
    FindIsLookup(s.In(c), key, r);
    assert s.common.Live(r) && InCache(s, c, r);
  }

  /** A live resource can be found by somebody exactly as long as the cache it was made for
      exists, and then only there. */
  lemma FoundIffCacheRemains<K>(now: int, run: seq<SharedAction<K>>, r: Id)
    requires ClockValue(now) && IsRun(SharedInit(now), run)
    requires After(SharedInit(now), run).common.Live(r)
    ensures var s := After(SharedInit(now), run);
      && r in s.home && s.home[r] < s.made
      && ((exists c, key :: FoundIn(s, c, key, r)) <==> s.home[r] in s.caches)
      && (forall c, key :: FoundIn(s, c, key, r) ==> c == s.home[r])
  {
    ReachedKeepsInv(now, run);
    var s := After(SharedInit(now), run);
    assert Homed(s, r);
    if s.home[r] in s.caches {
      var key := HomeFinds(s, r);
      assert FoundIn(s, s.home[r], key, r);
    }
    forall c, key | FoundIn(s, c, key, r) ensures c == s.home[r] {
      FoundIsHome(s, c, key, r);
    }
  }

  /** A session ends, and its service is unloaded with its cache while the manager of the
      worker strand stays. */
  function Unloading<K>(key: K): seq<SharedAction<K>> {
    [NewCache, At(0, AddNew(key, 1, 10))] + Leaving()
  }

  function Leaving<K>(): seq<SharedAction<K>> {
    [Outside(Release(1)), DropCache(0)]
  }

  lemma StepThenRun<K>(s: Shared<K>, a: SharedAction<K>, run: seq<SharedAction<K>>)
    requires SharedEnabled(s, a) && IsRun(SharedNext(s, a), run)
    ensures IsRun(s, [a] + run) && After(s, [a] + run) == After(SharedNext(s, a), run)
  {
    assert ([a] + run)[1..] == run;
  }

  /** Its resource lives on in the manager, and nobody finds it any more. */
  lemma UnloadedIsLost<K>(now: int, key: K)
    requires ClockValue(now)
    ensures IsRun(SharedInit(now), Unloading(key))
    ensures var s := After(SharedInit(now), Unloading(key));
      s.common.Live(1) && 1 in s.home && s.home[1] == 0 && forall c, k :: !FoundIn(s, c, k, 1)
  {
    var s0 := SharedInit<K>(now);
    var a1, a2 := NewCache, At(0, AddNew(key, 1, 10));
    var s1 := SharedNext(s0, a1);
    var s2 := SharedNext(s1, a2);
    var s3 := SharedNext(s2, Outside(Release(1)));
    var s4 := SharedNext(s3, DropCache(0));
    assert s4.common.owned[0] == Some(1);
    StepThenRun(s3, DropCache(0), []);
    StepThenRun(s2, Outside(Release(1)), [DropCache(0)]);
    assert [Outside(Release(1))] + [DropCache(0)] == Leaving<K>();
    StepThenRun(s1, a2, Leaving());
    StepThenRun(s0, a1, [a2] + Leaving());
    assert [a1] + ([a2] + Leaving()) == Unloading(key);
  }

  /** Where in the manager a resource is. */
  function SlotsOf(owned: seq<Option<Id>>, r: Id): set<nat> {
    set i: nat | i < |owned| && owned[i] == Some(r)
  }

  /** In every run a resource is live exactly when one manager slot holds it, and a locked
      one always is. */
  lemma LiveMeansOwnedOnce<K>(now: int, run: seq<SharedAction<K>>, r: Id)
    requires ClockValue(now) && IsRun(SharedInit(now), run)
    ensures var w := After(SharedInit(now), run).common;
      && (w.Live(r) <==> |SlotsOf(w.owned, r)| == 1)
      && (!w.Live(r) <==> |SlotsOf(w.owned, r)| == 0)
  {
    ReachedKeepsInv(now, run);
    var w := After(SharedInit(now), run).common;
    if Some(r) in w.owned {
      var i: nat :| i < |w.owned| && w.owned[i] == Some(r);
      assert SlotsOf(w.owned, r) == {i};
    } else {
      assert SlotsOf(w.owned, r) == {};
    }
  }
}
