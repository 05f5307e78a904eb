/**
 What has happened to one resource, read off the steps of a run: who made it under which key,
 the age limit it was given, and who holds locks on it -- next to what caches, manager and
 locks have made of it.
 */
module ResourceHistory {
  import opened Basics
  import opened Resources

  /** Its cache and key, its age limit, the locks held, and the last release. */
  datatype Past<K> = Past(made: Option<(nat, K)>, maxAge: int, holders: int, released: Option<Dropped>)

  function Unheard<K>(): Past<K> {
    Past(None, 0, 0, None)
  }

  /** The resource a step makes. */
  function Made<K(==)>(s: Shared<K>, a: SharedAction<K>): Option<Id>
    requires SharedEnabled(s, a)
  {
    if a.At? && MakesNew(s.In(a.cache), a.action) then Some(a.action.resource) else None
  }

  /** The resource a step hands out a lock on. */
  function Locked<K(==)>(s: Shared<K>, a: SharedAction<K>): Option<Id>
    requires SharedEnabled(s, a)
  {
    match a
    case At(c, LockFound(key)) => Find(s.In(c), key).1
    case At(c, FindOrCreateNew(key, r, _)) =>
      if Find(s.In(c), key).1.Some? then Find(s.In(c), key).1 else Some(r)
    case At(_, AddNew(_, r, _)) => Some(r)
    case Outside(CopyLock(r)) => Some(r)
    case _ => None
  }

  predicate Releases<K>(a: SharedAction<K>, r: Id) {
    a.Outside? && a.action.Release? && a.action.resource == r
  }

  predicate Ages<K>(a: SharedAction<K>, r: Id) {
    a.Outside? && a.action.SetMaxAge? && a.action.resource == r
  }

  /** One step further, from the state `s`. */
  function Heard<K(==)>(past: Past<K>, s: Shared<K>, a: SharedAction<K>, r: Id): Past<K>
    requires SharedEnabled(s, a)
  {
    Past(
      if Made(s, a) == Some(r) then Some((a.cache, a.action.key)) else past.made,
      if Made(s, a) == Some(r) || Ages(a, r) then a.action.maxAge else past.maxAge,
      past.holders + (if Locked(s, a) == Some(r) then 1 else 0) - (if Releases(a, r) then 1 else 0),
      if Releases(a, r) then Some(Dropped(s.common.now, past.maxAge)) else past.released)
  }

  ghost function PastOf<K>(past: Past<K>, s: Shared<K>, run: seq<SharedAction<K>>, r: Id): Past<K>
    requires IsRun(s, run)
    decreases |run|
  {
    if run == [] then past else PastOf(Heard(past, s, run[0], r), SharedNext(s, run[0]), run[1..], r)
  }

  // ---------------------------------------------------------------- what the state makes of it

  ghost predicate HeldAs<K>(s: Shared<K>, past: Past<K>, r: Id) {
    && past.holders == s.common.locks[r]
    && (past.made.Some? <==> r in s.common.objects)
    && (r in s.common.objects ==> s.common.objects[r].maxAge == past.maxAge)
    && past.released == (if r in s.common.dropped then Some(s.common.dropped[r]) else None)
  }

  /** A live resource is in the slot it was put in, as long as its cache exists. */
  ghost predicate KeptAs<K>(s: Shared<K>, past: Past<K>, r: Id) {
    past.made.Some? && s.common.Live(r) ==>
      var (c, key) := past.made.value;
      r in s.home && s.home[r] == c && (c in s.caches ==> CacheSlot(key, r) in s.caches[c])
  }

  lemma CacheStepHolds<K>(s: Shared<K>, past: Past<K>, c: nat, a: Action<K>, r: Id)
    requires SharedInv(s) && SharedEnabled(s, At(c, a)) && HeldAs(s, past, r)
    ensures HeldAs(SharedNext(s, At(c, a)), Heard(past, s, At(c, a), r), r)
  {
    var found := Find(s.In(c), a.key).1;
    assert s.In(c).locks == s.common.locks && s.In(c).objects == s.common.objects;
    assert found.Some? ==> s.common.Live(found.value);
  }

  lemma OutsideStepHolds<K>(s: Shared<K>, past: Past<K>, a: Action<K>, r: Id)
    requires SharedInv(s) && SharedEnabled(s, Outside(a)) && HeldAs(s, past, r)
    ensures HeldAs(SharedNext(s, Outside(a)), Heard(past, s, Outside(a), r), r)
  {
  }

  lemma StepHolds<K>(s: Shared<K>, past: Past<K>, a: SharedAction<K>, r: Id)
    requires SharedInv(s) && SharedEnabled(s, a) && HeldAs(s, past, r)
    ensures HeldAs(SharedNext(s, a), Heard(past, s, a, r), r)
  {
    match a {
      case At(c, action) => CacheStepHolds(s, past, c, action, r);
      case Outside(action) => OutsideStepHolds(s, past, action, r);
      case _ =>
    }
  }

  /** A slot of a resource that stays live is not reused. */
  lemma SlotStays<K>(w: World<K>, a: Action<K>, slot: CacheSlot<K>)
    requires Enabled(w, a) && w.Live(slot.resource) && slot in w.cached
    ensures slot in Next(w, a).cached
  {
    var i :| 0 <= i < |w.cached| && w.cached[i] == slot;
    if MakesNew(w, a) {
      assert i != FirstExpired(w, 0);
      assert Next(w, a).cached[i] == slot;
    }
  }

  lemma NewSlotIsThere<K>(w: World<K>, a: Action<K>)
    requires Enabled(w, a) && MakesNew(w, a)
    ensures CacheSlot(a.key, a.resource) in Next(w, a).cached
  {
    assert Next(w, a).cached[FirstExpired(w, 0)] == CacheSlot(a.key, a.resource);
  }

  lemma MakingKeeps<K>(s: Shared<K>, past: Past<K>, c: nat, a: Action<K>, r: Id)
    requires SharedInv(s) && SharedEnabled(s, At(c, a)) && HeldAs(s, past, r)
    requires !s.common.Live(r) && SharedNext(s, At(c, a)).common.Live(r)
    ensures KeptAs(SharedNext(s, At(c, a)), Heard(past, s, At(c, a), r), r)
  {
    assert Coherent(s.In(c)) && Next(s.In(c), a).Live(r) && !s.In(c).Live(r);
    NewLiveIsFresh(s.In(c), a, r);
    NewSlotIsThere(s.In(c), a);
  }

  lemma StayingKeeps<K>(s: Shared<K>, past: Past<K>, c: nat, a: Action<K>, r: Id)
    requires SharedInv(s) && SharedEnabled(s, At(c, a)) && KeptAs(s, past, r)
    requires s.common.Live(r)
    ensures KeptAs(SharedNext(s, At(c, a)), Heard(past, s, At(c, a), r), r)
  {
    assert Coherent(s.In(c)) && s.In(c).Live(r);
    SlotsOfLiveStay(s.In(c), a, r);
    assert Heard(past, s, At(c, a), r).made == past.made;
    if past.made.Some? {
      var slot := CacheSlot(past.made.value.1, r);
      assert slot in s.In(c).cached ==> slot in Next(s.In(c), a).cached by {
        if slot in s.In(c).cached {
          SlotStays(s.In(c), a, slot);
        }
      }
    }
  }

  lemma CacheStepKeeps<K>(s: Shared<K>, past: Past<K>, c: nat, a: Action<K>, r: Id)
    requires SharedInv(s) && SharedEnabled(s, At(c, a)) && HeldAs(s, past, r) && KeptAs(s, past, r)
    ensures KeptAs(SharedNext(s, At(c, a)), Heard(past, s, At(c, a), r), r)
  {
    if s.common.Live(r) {
      StayingKeeps(s, past, c, a, r);
    } else if SharedNext(s, At(c, a)).common.Live(r) {
      MakingKeeps(s, past, c, a, r);
    }
  }

  lemma OutsideStepKeeps<K>(s: Shared<K>, past: Past<K>, a: Action<K>, r: Id)
    requires SharedInv(s) && SharedEnabled(s, Outside(a)) && KeptAs(s, past, r)
    ensures KeptAs(SharedNext(s, Outside(a)), Heard(past, s, Outside(a), r), r)
  {
    OthersMakeNothingLive(s.common, a, r);
  }

  lemma StepKeeps<K>(s: Shared<K>, past: Past<K>, a: SharedAction<K>, r: Id)
    requires SharedInv(s) && SharedEnabled(s, a) && HeldAs(s, past, r) && KeptAs(s, past, r)
    ensures KeptAs(SharedNext(s, a), Heard(past, s, a, r), r)
  {
    match a {
      case At(c, action) => CacheStepKeeps(s, past, c, action, r);
      case Outside(action) => OutsideStepKeeps(s, past, action, r);
      case NewCache =>
        assert s.common.Live(r) ==> Homed(s, r);
      case DropCache(_) =>
    }
  }

  lemma {:induction false} RunRemembers<K>(s: Shared<K>, past: Past<K>, run: seq<SharedAction<K>>, r: Id)
    requires SharedInv(s) && IsRun(s, run) && HeldAs(s, past, r) && KeptAs(s, past, r)
    ensures var end, past' := After(s, run), PastOf(past, s, run, r);
      SharedInv(end) && HeldAs(end, past', r) && KeptAs(end, past', r)
    decreases |run|
  {
    if run != [] {
      SharedNextKeepsInv(s, run[0]);
      StepHolds(s, past, run[0], r);
      StepKeeps(s, past, run[0], r);
      RunRemembers(SharedNext(s, run[0]), Heard(past, s, run[0], r), run[1..], r);
    }
  }

  lemma Remembered<K>(now: int, run: seq<SharedAction<K>>, r: Id)
    requires ClockValue(now) && IsRun(SharedInit(now), run)
    ensures var end, past := After(SharedInit(now), run), PastOf(Unheard(), SharedInit(now), run, r);
      SharedInv(end) && HeldAs(end, past, r) && KeptAs(end, past, r)
  {
    RunRemembers(SharedInit(now), Unheard(), run, r);
  }

  // ---------------------------------------------------------------- main results

  /** In every run the locks on a resource are those handed out and not released yet, its age
      limit is the one it was given last, and while it is held it is live. */
  lemma LocksAreHolders<K>(now: int, run: seq<SharedAction<K>>, r: Id)
    requires ClockValue(now) && IsRun(SharedInit(now), run)
    ensures var end, past := After(SharedInit(now), run), PastOf(Unheard(), SharedInit(now), run, r);
      && end.common.locks[r] == past.holders
      && (past.made.Some? <==> r in end.common.objects)
      && (past.made.Some? ==> end.common.objects[r].maxAge == past.maxAge)
      && (past.holders > 0 ==> end.common.Live(r))
      && (end.common.Live(r) ==> past.made.Some?)
  {
    Remembered(now, run, r);
    assert Owned(After(SharedInit(now), run).common);
  }

  /** In every run `find` gives a resource exactly if it is live and was made for this cache
      under this key. */
  lemma FindsWhatWasMade<K>(now: int, run: seq<SharedAction<K>>, c: nat, key: K, r: Id)
    requires ClockValue(now) && IsRun(SharedInit(now), run) && c in After(SharedInit(now), run).caches
    ensures var end, past := After(SharedInit(now), run), PastOf(Unheard(), SharedInit(now), run, r);
      Find(end.In(c), key).1 == Some(r) <==> end.common.Live(r) && past.made == Some((c, key))
  {
    Remembered(now, run, r);
    LocksAreHolders(now, run, r);
    var end, past := After(SharedInit(now), run), PastOf(Unheard(), SharedInit(now), run, r);
    FindIsLookup(end.In(c), key, r);
    if Stored(end.In(c), key, r) {
      FoundIsHome(end, c, key, r);
      OneSlot(end.In(c), key, past.made.value.1, r);
    }
  }

  lemma OneSlot<K>(w: World<K>, key: K, key': K, r: Id)
    requires Coherent(w) && Stored(w, key, r) && CacheSlot(key', r) in w.cached
    ensures key == key'
  {
    var i :| 0 <= i < |w.cached| && w.cached[i] == CacheSlot(key, r);
    var j :| 0 <= j < |w.cached| && w.cached[j] == CacheSlot(key', r);
    assert !(i < j) && !(j < i);
  }

  /** A collection in any run leaves what is held, and removes of the rest exactly what was
      released so long ago that the age limit it had then has passed, and all of it when forced. */
  lemma CollectionIsExact<K>(now: int, run: seq<SharedAction<K>>, force: bool, r: Id)
    requires ClockValue(now) && IsRun(SharedInit(now), run)
    ensures var w, past := After(SharedInit(now), run).common, PastOf(Unheard(), SharedInit(now), run, r);
      && (past.holders > 0 ==> Collect(w, force).Live(r))
      && (past.holders <= 0 && w.Live(r) ==>
            && past.released.Some?
            && var deadline := past.released.value.time + past.released.value.maxAge * NANOSECONDS;
            (Collect(w, force).Live(r) <==> !force && w.now < deadline))
      && (!w.Live(r) ==> !Collect(w, force).Live(r))
  {
    LocksAreHolders(now, run, r);
    Remembered(now, run, r);
    CollectedSlots(After(SharedInit(now), run).common, force, r);
  }

  /** Nobody gets a lock on it any more. */
  ghost predicate NeverLocked<K>(s: Shared<K>, run: seq<SharedAction<K>>, r: Id)
    requires IsRun(s, run)
    decreases |run|
  {
    run != [] ==> Locked(s, run[0]) != Some(r) && NeverLocked(SharedNext(s, run[0]), run[1..], r)
  }

  predicate Collects<K>(s: Shared<K>, a: SharedAction<K>, deadline: int) {
    a.Outside? && a.action.GarbageCollect? && (a.action.force || deadline <= s.common.now)
  }

  /** No collection is forced, or made at the deadline or after. */
  ghost predicate NotCollected<K>(s: Shared<K>, run: seq<SharedAction<K>>, deadline: int)
    requires IsRun(s, run)
    decreases |run|
  {
    run != [] ==> !Collects(s, run[0], deadline) && NotCollected(SharedNext(s, run[0]), run[1..], deadline)
  }

  /** Nobody holds it, and it expires at the deadline. */
  ghost predicate Abandoned<K>(s: Shared<K>, r: Id, deadline: int) {
    SharedInv(s) && r in s.common.objects && s.common.locks[r] == 0 && s.common.objects[r].expireTime == deadline
  }

  lemma CacheLeavesAbandoned<K>(s: Shared<K>, c: nat, a: Action<K>, r: Id, deadline: int)
    requires Abandoned(s, r, deadline) && SharedEnabled(s, At(c, a)) && Locked(s, At(c, a)) != Some(r)
    ensures var s' := SharedNext(s, At(c, a));
      && r in s'.common.objects && s'.common.locks[r] == 0 && s'.common.objects[r].expireTime == deadline
      && (s'.common.Live(r) <==> s.common.Live(r))
  {
    var w := s.In(c);
    if MakesNew(w, a) {
      AddMakesLive(w, a.key, a.resource, a.maxAge);
    }
    assert w.Live(r) <==> s.common.Live(r);
    assert Next(w, a).Live(r) <==> w.Live(r);
  }

  lemma OutsideLeavesAbandoned<K>(s: Shared<K>, a: Action<K>, r: Id, deadline: int)
    requires Abandoned(s, r, deadline) && SharedEnabled(s, Outside(a)) && Locked(s, Outside(a)) != Some(r)
    ensures var s' := SharedNext(s, Outside(a));
      && r in s'.common.objects && s'.common.locks[r] == 0 && s'.common.objects[r].expireTime == deadline
      && (s'.common.Live(r) <==> s.common.Live(r) && !Collects(s, Outside(a), deadline))
  {
    if a.GarbageCollect? {
      CollectedSlots(s.common, a.force, r);
    }
  }

  lemma StepLeavesAbandoned<K>(s: Shared<K>, a: SharedAction<K>, r: Id, deadline: int)
    requires Abandoned(s, r, deadline) && SharedEnabled(s, a) && Locked(s, a) != Some(r)
    ensures var s' := SharedNext(s, a);
      Abandoned(s', r, deadline) && (s'.common.Live(r) <==> s.common.Live(r) && !Collects(s, a, deadline))
  {
    SharedNextKeepsInv(s, a);
    match a {
      case At(c, action) => CacheLeavesAbandoned(s, c, action, r, deadline);
      case Outside(action) => OutsideLeavesAbandoned(s, action, r, deadline);
      case _ =>
    }
  }

  lemma {:induction false} AbandonedLives<K>(s: Shared<K>, run: seq<SharedAction<K>>, r: Id, deadline: int)
    requires Abandoned(s, r, deadline) && IsRun(s, run) && NeverLocked(s, run, r)
    ensures After(s, run).common.Live(r) <==> s.common.Live(r) && NotCollected(s, run, deadline)
    decreases |run|
  {
    if run != [] {
      StepLeavesAbandoned(s, run[0], r, deadline);
      AbandonedLives(SharedNext(s, run[0]), run[1..], r, deadline);
    }
  }

  lemma ReleasedIsAbandoned<K>(s: Shared<K>, past: Past<K>, r: Id)
    requires SharedInv(s) && HeldAs(s, past, r) && past.holders == 1
    requires SharedEnabled(s, Outside(Release(r)))
    ensures var freed := SharedNext(s, Outside(Release(r)));
      freed.common.Live(r) && Abandoned(freed, r, s.common.now + past.maxAge * NANOSECONDS)
  {
    SharedNextKeepsInv(s, Outside(Release(r)));
    assert Owned(s.common) && Some(r) in s.common.owned;
  }

  function Freed<K(==)>(s: Shared<K>, r: Id): Shared<K>
    requires SharedEnabled(s, Outside(Release(r)))
  {
    SharedNext(s, Outside(Release(r)))
  }

  lemma ReleasedLives<K>(s: Shared<K>, past: Past<K>, r: Id, run: seq<SharedAction<K>>)
    requires SharedInv(s) && HeldAs(s, past, r) && past.holders == 1
    requires SharedEnabled(s, Outside(Release(r)))
    requires IsRun(Freed(s, r), run) && NeverLocked(Freed(s, r), run, r)
    ensures After(Freed(s, r), run).common.Live(r)
       <==> NotCollected(Freed(s, r), run, s.common.now + past.maxAge * NANOSECONDS)
  {
    ReleasedIsAbandoned(s, past, r);
    AbandonedLives(Freed(s, r), run, r, s.common.now + past.maxAge * NANOSECONDS);
  }

  /** A resource whose last lock is released, after whatever run, and that is not locked again,
      is live until the first collection that is forced, or made when the age limit it was given
      has passed since the release. */
  lemma KeptForItsAge<K>(now: int, before: seq<SharedAction<K>>, s: Shared<K>, past: Past<K>, r: Id,
                         run: seq<SharedAction<K>>)
    requires ClockValue(now) && IsRun(SharedInit(now), before)
    requires s == After(SharedInit(now), before) && past == PastOf(Unheard(), SharedInit(now), before, r)
    requires past.holders == 1 && SharedEnabled(s, Outside(Release(r)))
    requires IsRun(Freed(s, r), run) && NeverLocked(Freed(s, r), run, r)
    ensures After(Freed(s, r), run).common.Live(r)
       <==> NotCollected(Freed(s, r), run, s.common.now + past.maxAge * NANOSECONDS)
  {
    Remembered(now, before, r);
    ReleasedLives(s, past, r, run);
  }

  // ---------------------------------------------------------------- the clock

  /** The last reading of the clock. */
  function Clock<K>(now: int, run: seq<SharedAction<K>>): int
    decreases |run|
  {
    if run == [] then now
    else Clock(if run[0].Outside? && run[0].action.TickTo? then run[0].action.now else now, run[1..])
  }

  lemma {:induction false} NowIsClock<K>(s: Shared<K>, run: seq<SharedAction<K>>)
    requires IsRun(s, run)
    ensures After(s, run).common.now == Clock(s.common.now, run)
    decreases |run|
  {
    if run != [] {
      var now := SharedNext(s, run[0]).common.now;
      assert now == if run[0].Outside? && run[0].action.TickTo? then run[0].action.now else s.common.now;
      NowIsClock(SharedNext(s, run[0]), run[1..]);
    }
  }
}
