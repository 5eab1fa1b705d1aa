/** The HTTP gateway's routing: an owner cache with expiry, kept warm by room
    events, and a round robin over the backends for everything else. */
module Gateway {
  import opened Options
  import opened Shared

  type Instance = string

  datatype Entry = Entry(instance: Instance, expiresAt: int)

  type Cache = map<RaceId, Entry>

  /** What the registry of rooms answers to a lookup. */
  datatype Ownership = LookupFailed | NoOwner | OwnedBy(instance: Instance)

  datatype Resolution = Failed | NotFound | Found(instance: Instance)

  datatype RoomEvent = Created(raceId: RaceId, instance: Instance) | Removed(raceId: RaceId) | Unknown(raceId: RaceId)

  function Hit(cache: Cache, raceId: RaceId, now: int): Option<Instance> {
    if raceId in cache && now < cache[raceId].expiresAt then Some(cache[raceId].instance) else None
  }

  // ------------------------------------------------------- writes to the cache

  /** The atomic writes, each under the lock, of any number of requests and of the
      event watcher, in the order the lock grants. */
  datatype Write = Store(raceId: RaceId, instance: Instance, now: int) | Delete(raceId: RaceId)

  function Written(cache: Cache, ttl: int, w: Write): Cache {
    match w
    case Store(raceId, instance, now) => cache[raceId := Entry(instance, now + ttl)]
    case Delete(raceId) => cache - {raceId}
  }

  function AfterWrites(ttl: int, ws: seq<Write>): Cache {
    if |ws| == 0 then map[] else Written(AfterWrites(ttl, ws[..|ws| - 1]), ttl, ws[|ws| - 1])
  }

  /** Write k is the latest one that concerns the race. */
  ghost predicate Latest(ws: seq<Write>, k: nat, raceId: RaceId) {
    k < |ws| && ws[k].raceId == raceId && forall j :: k < j < |ws| ==> ws[j].raceId != raceId
  }

  lemma LatestBefore(ws: seq<Write>, k: nat, raceId: RaceId)
    requires |ws| > 0 && ws[|ws| - 1].raceId != raceId
    ensures Latest(ws, k, raceId) <==> Latest(ws[..|ws| - 1], k, raceId)
  {
  }

  /** The race's instance is vouched for at this moment: the latest write about it
      stored that instance, less than the time to live ago. */
  ghost predicate Vouched(ws: seq<Write>, ttl: int, raceId: RaceId, instance: Instance, now: int) {
    exists k: nat :: Latest(ws, k, raceId) && ws[k].Store? && ws[k].instance == instance && now < ws[k].now + ttl
  }

  /** An instance is served if and only if it is vouched for: never past its expiry,
      and never against a later write about its race. */
  lemma {:induction false} ServedIffVouched(ws: seq<Write>, ttl: int, raceId: RaceId, instance: Instance, now: int)
    ensures Hit(AfterWrites(ttl, ws), raceId, now) == Some(instance) <==> Vouched(ws, ttl, raceId, instance, now)
  {
    if |ws| > 0 {
      var n := |ws| - 1;
      var before := ws[..n];
      ServedIffVouched(before, ttl, raceId, instance, now);
      if ws[n].raceId == raceId {
        assert Latest(ws, n, raceId);
      } else {
        forall k: nat ensures Latest(ws, k, raceId) <==> Latest(before, k, raceId) {
          LatestBefore(ws, k, raceId);
        }
      }
    }
  }

  /** Only one instance ever claims a race, so every store about it names that one. */
  ghost predicate OneClaimer(ws: seq<Write>, raceId: RaceId, claimer: Instance) {
    forall k :: 0 <= k < |ws| && ws[k].raceId == raceId && ws[k].Store? ==> ws[k].instance == claimer
  }

  lemma ServesTheClaimer(ws: seq<Write>, ttl: int, raceId: RaceId, claimer: Instance, now: int)
    requires OneClaimer(ws, raceId, claimer)
    ensures Hit(AfterWrites(ttl, ws), raceId, now) in {None, Some(claimer)}
  {
    var hit := Hit(AfterWrites(ttl, ws), raceId, now);
    if hit.Some? {
      ServedIffVouched(ws, ttl, raceId, hit.value, now);
    }
  }

  // ------------------------------------------------- requests and events interleaved

  /** Where a request stands: it missed the cache and asks the registry, or holds the
      answer it is about to store, or is done. */
  datatype Request = Asking(raceId: RaceId) | Holding(raceId: RaceId, instance: Instance) | Done(resolution: Resolution)

  datatype Gate = Gate(cache: Cache, requests: map<nat, Request>)

  /** What happens between two turns of the lock: a request checks the cache, gets the
      registry's answer or stores it, or the watcher handles an event. */
  datatype Step =
    | Check(id: nat, raceId: RaceId, now: int)
    | Answer(id: nat, owner: Ownership)
    | Put(id: nat, now: int)
    | Announce(ev: RoomEvent, now: int)

  function Checked(cache: Cache, raceId: RaceId, now: int): Request {
    match Hit(cache, raceId, now)
    case Some(i) => Done(Found(i))
    case None => Asking(raceId)
  }

  function Answered(raceId: RaceId, owner: Ownership): Request {
    match owner
    case LookupFailed => Done(Failed)
    case NoOwner => Done(NotFound)
    case OwnedBy(i) => Holding(raceId, i)
  }

  /** The write to the cache that a step makes, if any. */
  function WriteOf(g: Gate, s: Step): Option<Write> {
    match s
    case Put(id, now) =>
      if id in g.requests && g.requests[id].Holding? then
        Some(Store(g.requests[id].raceId, g.requests[id].instance, now))
      else None
    case Announce(ev, now) =>
      (match ev
       case Created(raceId, instance) => Some(Store(raceId, instance, now))
       case Removed(raceId) => Some(Delete(raceId))
       case Unknown(_) => None)
    case _ => None
  }

  function Moved(requests: map<nat, Request>, cache: Cache, s: Step): map<nat, Request> {
    match s
    case Check(id, raceId, now) => if id in requests then requests else requests[id := Checked(cache, raceId, now)]
    case Answer(id, owner) =>
      if id in requests && requests[id].Asking? then requests[id := Answered(requests[id].raceId, owner)] else requests
    case Put(id, _) =>
      if id in requests && requests[id].Holding? then requests[id := Done(Found(requests[id].instance))] else requests
    case Announce(_, _) => requests
  }

  function Stepped(g: Gate, ttl: int, s: Step): Gate {
    Gate(match WriteOf(g, s) case Some(w) => Written(g.cache, ttl, w) case None => g.cache,
         Moved(g.requests, g.cache, s))
  }

  function AfterSteps(ttl: int, steps: seq<Step>): Gate {
    if |steps| == 0 then Gate(map[], map[]) else Stepped(AfterSteps(ttl, steps[..|steps| - 1]), ttl, steps[|steps| - 1])
  }

  function WritesOf(ttl: int, steps: seq<Step>): seq<Write> {
    if |steps| == 0 then []
    else
      var before := WritesOf(ttl, steps[..|steps| - 1]);
      match WriteOf(AfterSteps(ttl, steps[..|steps| - 1]), steps[|steps| - 1])
      case Some(w) => before + [w]
      case None => before
  }

  /** Whatever the interleaving, the cache is what its writes made it, so that what
      is served is always what they vouch for. */
  lemma {:induction false} CacheIsItsWrites(ttl: int, steps: seq<Step>)
    ensures AfterSteps(ttl, steps).cache == AfterWrites(ttl, WritesOf(ttl, steps))
  {
    if |steps| > 0 {
      var before := steps[..|steps| - 1];
      CacheIsItsWrites(ttl, before);
      var ws := WritesOf(ttl, before);
      var w := WriteOf(AfterSteps(ttl, before), steps[|steps| - 1]);
      if w.Some? {
        assert (ws + [w.value])[..|ws|] == ws;
      }
    }
  }

  // ------------------------------------------------------ what the steps make of it

  /** Step k announces that this instance has the race's room, or a request that holds
      that answer comes to store it. */
  predicate Names(ttl: int, steps: seq<Step>, k: nat, raceId: RaceId, instance: Instance) {
    k < |steps| &&
    match steps[k]
    case Announce(ev, _) => ev == Created(raceId, instance)
    case Put(id, _) =>
      var requests := AfterSteps(ttl, steps[..k]).requests;
      id in requests && requests[id] == Holding(raceId, instance)
    case _ => false
  }

  predicate Removes(steps: seq<Step>, k: nat, raceId: RaceId) {
    k < |steps| && steps[k].Announce? && steps[k].ev == Removed(raceId)
  }

  /** It does either. */
  predicate Concerns(ttl: int, steps: seq<Step>, k: nat, raceId: RaceId) {
    k < |steps| &&
    match steps[k]
    case Announce(ev, _) => !ev.Unknown? && ev.raceId == raceId
    case Put(id, _) =>
      var requests := AfterSteps(ttl, steps[..k]).requests;
      id in requests && requests[id].Holding? && requests[id].raceId == raceId
    case _ => false
  }

  /** Step k is the latest about the race, and names this instance. */
  ghost predicate NamedLast(ttl: int, steps: seq<Step>, k: nat, raceId: RaceId, instance: Instance) {
    && Names(ttl, steps, k, raceId, instance)
    && forall j: nat :: k < j < |steps| ==> !Concerns(ttl, steps, j, raceId)
  }

  lemma StepAt(g: Gate, ttl: int, s: Step, raceId: RaceId)
    ensures var w := WriteOf(g, s);
      var after := Stepped(g, ttl, s).cache;
      if w.None? || w.value.raceId != raceId then
        (raceId in after <==> raceId in g.cache) && (raceId in after ==> after[raceId] == g.cache[raceId])
      else if w.value.Delete? then raceId !in after
      else raceId in after && after[raceId] == Entry(w.value.instance, w.value.now + ttl)
  {
  }

  /** One step: it stores the instance it names, deletes the race it removes, and leaves
      every other entry as it was. */
  lemma StepWrites(ttl: int, steps: seq<Step>, raceId: RaceId)
    requires |steps| > 0
    ensures var n := |steps| - 1;
      var was, cache := AfterSteps(ttl, steps[..n]).cache, AfterSteps(ttl, steps).cache;
      if !Concerns(ttl, steps, n, raceId) then
        (raceId in cache <==> raceId in was) && (raceId in cache ==> cache[raceId] == was[raceId])
      else if Removes(steps, n, raceId) then raceId !in cache
      else raceId in cache && cache[raceId].expiresAt == steps[n].now + ttl
           && forall i :: Names(ttl, steps, n, raceId, i) <==> i == cache[raceId].instance
  {
    var n := |steps| - 1;
    StepAt(AfterSteps(ttl, steps[..n]), ttl, steps[n], raceId);
  }

  lemma NamesBefore(ttl: int, steps: seq<Step>, before: seq<Step>, k: nat, raceId: RaceId)
    requires |steps| == |before| + 1 && before == steps[..|before|] && k < |before|
    ensures forall i :: Names(ttl, before, k, raceId, i) <==> Names(ttl, steps, k, raceId, i)
    ensures Concerns(ttl, before, k, raceId) <==> Concerns(ttl, steps, k, raceId)
  {
    assert before[..k] == steps[..k];
  }

  lemma NamedLastBefore(ttl: int, steps: seq<Step>, before: seq<Step>, k: nat, raceId: RaceId, instance: Instance)
    requires |steps| == |before| + 1 && before == steps[..|before|] && k < |before|
    requires !Concerns(ttl, steps, |before|, raceId)
    ensures NamedLast(ttl, before, k, raceId, instance) <==> NamedLast(ttl, steps, k, raceId, instance)
  {
    NamesBefore(ttl, steps, before, k, raceId);
    if NamedLast(ttl, before, k, raceId, instance) {
      forall j: nat | k < j < |steps| ensures !Concerns(ttl, steps, j, raceId) {
        if j < |before| {
          NamesBefore(ttl, steps, before, j, raceId);
        }
      }
    } else if NamedLast(ttl, steps, k, raceId, instance) {
      forall j: nat | k < j < |before| ensures !Concerns(ttl, before, j, raceId) {
        NamesBefore(ttl, steps, before, j, raceId);
      }
    }
  }

  lemma LastIsLast(ttl: int, steps: seq<Step>, raceId: RaceId)
    requires |steps| > 0 && Concerns(ttl, steps, |steps| - 1, raceId)
    ensures forall k: nat, i :: NamedLast(ttl, steps, k, raceId, i) ==> k == |steps| - 1
  {
  }

  /** In every interleaving the cache holds, of each race, the instance that the latest of
      the steps about it named, until the time to live is over. */
  ghost predicate CacheTells(ttl: int, steps: seq<Step>, raceId: RaceId) {
    var cache := AfterSteps(ttl, steps).cache;
    && (raceId in cache ==> exists k: nat :: NamedLast(ttl, steps, k, raceId, cache[raceId].instance))
    && (forall k: nat, i :: NamedLast(ttl, steps, k, raceId, i) ==>
          raceId in cache && cache[raceId] == Entry(i, steps[k].now + ttl))
  }

  lemma {:induction false} CacheAlwaysTells(ttl: int, steps: seq<Step>, raceId: RaceId)
    ensures CacheTells(ttl, steps, raceId)
  {
    if |steps| > 0 {
      var n := |steps| - 1;
      CacheAlwaysTells(ttl, steps[..n], raceId);
      StepWrites(ttl, steps, raceId);
      if Concerns(ttl, steps, n, raceId) {
        TellsNow(ttl, steps, raceId);
      } else {
        TellsStill(ttl, steps, steps[..n], raceId);
      }
    }
  }

  lemma TellsNow(ttl: int, steps: seq<Step>, raceId: RaceId)
    requires |steps| > 0 && Concerns(ttl, steps, |steps| - 1, raceId)
    ensures CacheTells(ttl, steps, raceId)
  {
    var n := |steps| - 1;
    StepWrites(ttl, steps, raceId);
    LastIsLast(ttl, steps, raceId);
    if !Removes(steps, n, raceId) {
      assert NamedLast(ttl, steps, n, raceId, AfterSteps(ttl, steps).cache[raceId].instance);
    }
  }

  lemma TellsStill(ttl: int, steps: seq<Step>, before: seq<Step>, raceId: RaceId)
    requires |steps| == |before| + 1 && before == steps[..|before|] && CacheTells(ttl, before, raceId)
    requires !Concerns(ttl, steps, |before|, raceId)
    requires var was, cache := AfterSteps(ttl, before).cache, AfterSteps(ttl, steps).cache;
      (raceId in cache <==> raceId in was) && (raceId in cache ==> cache[raceId] == was[raceId])
    ensures CacheTells(ttl, steps, raceId)
  {
    forall k: nat, i | k < |before|
      ensures NamedLast(ttl, before, k, raceId, i) <==> NamedLast(ttl, steps, k, raceId, i)
    {
      NamedLastBefore(ttl, steps, before, k, raceId, i);
    }
  }

  /** So an instance is served if and only if the latest step about the race named it,
      less than the time to live ago. */
  lemma ServedIffNamed(ttl: int, steps: seq<Step>, raceId: RaceId, instance: Instance, now: int)
    ensures Hit(AfterSteps(ttl, steps).cache, raceId, now) == Some(instance)
       <==> exists k: nat :: NamedLast(ttl, steps, k, raceId, instance) && now < steps[k].now + ttl
  {
    CacheAlwaysTells(ttl, steps, raceId);
  }

  // ---------------------------------------------------------- after a removal

  predicate Holds(requests: map<nat, Request>, id: nat, raceId: RaceId) {
    id in requests && requests[id].Holding? && requests[id].raceId == raceId
  }

  predicate HoldsAt(ttl: int, steps: seq<Step>, n: nat, id: nat, raceId: RaceId)
    requires n <= |steps|
  {
    Holds(AfterSteps(ttl, steps[..n]).requests, id, raceId)
  }

  /** Step k stores the answer of a request that already held it at step d. */
  predicate StoresLate(ttl: int, steps: seq<Step>, d: nat, k: nat, raceId: RaceId) {
    && d < k < |steps| && steps[k].Put?
    && HoldsAt(ttl, steps, d, steps[k].id, raceId)
    && HoldsAt(ttl, steps, k, steps[k].id, raceId)
  }

  ghost predicate LastLate(ttl: int, steps: seq<Step>, d: nat, k: nat, raceId: RaceId) {
    StoresLate(ttl, steps, d, k, raceId) && forall j :: k < j < |steps| ==> !StoresLate(ttl, steps, d, j, raceId)
  }

  /** Step j announces the room again, or the registry names an owner in it. */
  predicate NamesAgain(ttl: int, steps: seq<Step>, j: nat, raceId: RaceId)
    requires j < |steps|
  {
    match steps[j]
    case Announce(ev, _) => ev.Created? && ev.raceId == raceId
    case Answer(id, owner) =>
      var requests := AfterSteps(ttl, steps[..j]).requests;
      owner.OwnedBy? && id in requests && requests[id] == Asking(raceId)
    case _ => false
  }

  /** Step d removes the room, and nothing names it again. */
  ghost predicate GoneSince(ttl: int, steps: seq<Step>, d: nat, raceId: RaceId) {
    && d < |steps| && steps[d].Announce? && steps[d].ev == Removed(raceId)
    && forall j :: d < j < |steps| ==>
         !NamesAgain(ttl, steps, j, raceId) && !(steps[j].Announce? && steps[j].ev == Removed(raceId))
  }

  /** The cache holds the last of the answers stored late, and no other. */
  ghost predicate CacheIsLate(ttl: int, steps: seq<Step>, d: nat, raceId: RaceId) {
    var cache := AfterSteps(ttl, steps).cache;
    && (raceId in cache ==> exists k: nat :: LastLate(ttl, steps, d, k, raceId))
    && (forall k: nat :: LastLate(ttl, steps, d, k, raceId) ==>
          raceId in cache && cache[raceId].expiresAt == steps[k].now + ttl)
  }

  /** Whoever holds an answer about the room has held it since before the removal, and
      the cache holds the last of those stored since. */
  ghost predicate OnlyLate(ttl: int, steps: seq<Step>, d: nat, raceId: RaceId) {
    && (forall id :: HoldsAt(ttl, steps, |steps|, id, raceId) ==> d <= |steps| && HoldsAt(ttl, steps, d, id, raceId))
    && CacheIsLate(ttl, steps, d, raceId)
  }

  lemma HoldsBefore(ttl: int, steps: seq<Step>, n: nat, id: nat, raceId: RaceId)
    requires n < |steps|
    ensures HoldsAt(ttl, steps, n, id, raceId) == HoldsAt(ttl, steps[..|steps| - 1], n, id, raceId)
  {
    assert steps[..|steps| - 1][..n] == steps[..n];
  }

  lemma LateBefore(ttl: int, steps: seq<Step>, d: nat, k: nat, raceId: RaceId)
    requires k < |steps| - 1
    ensures StoresLate(ttl, steps, d, k, raceId) == StoresLate(ttl, steps[..|steps| - 1], d, k, raceId)
  {
    if d < k && steps[k].Put? {
      HoldsBefore(ttl, steps, d, steps[k].id, raceId);
      HoldsBefore(ttl, steps, k, steps[k].id, raceId);
    }
  }

  lemma HoldStep(g: Gate, s: Step, id: nat, raceId: RaceId)
    requires Holds(Moved(g.requests, g.cache, s), id, raceId)
    ensures Holds(g.requests, id, raceId) ||
      (s.Answer? && s.id == id && s.owner.OwnedBy? && id in g.requests && g.requests[id] == Asking(raceId))
  {
  }

  lemma AtRemoval(ttl: int, steps: seq<Step>, d: nat, raceId: RaceId)
    requires GoneSince(ttl, steps, d, raceId) && |steps| == d + 1
    ensures OnlyLate(ttl, steps, d, raceId)
  {
    assert steps[..|steps|] == steps && steps[..|steps| - 1] == steps[..d];
    StepAt(AfterSteps(ttl, steps[..d]), ttl, steps[d], raceId);
  }

  lemma GoneBefore(ttl: int, steps: seq<Step>, d: nat, raceId: RaceId)
    requires GoneSince(ttl, steps, d, raceId) && |steps| > d + 1
    ensures GoneSince(ttl, steps[..|steps| - 1], d, raceId)
  {
    var before := steps[..|steps| - 1];
    forall j | d < j < |before|
      ensures !NamesAgain(ttl, before, j, raceId) && !(before[j].Announce? && before[j].ev == Removed(raceId))
    {
      assert before[..j] == steps[..j];
      assert !NamesAgain(ttl, steps, j, raceId);
    }
  }

  lemma HoldersAreOld(ttl: int, steps: seq<Step>, d: nat, raceId: RaceId, id: nat)
    requires GoneSince(ttl, steps, d, raceId) && |steps| > d + 1
    requires OnlyLate(ttl, steps[..|steps| - 1], d, raceId)
    requires HoldsAt(ttl, steps, |steps|, id, raceId)
    ensures HoldsAt(ttl, steps, d, id, raceId)
  {
    var n := |steps| - 1;
    assert steps[..|steps|] == steps && steps[..n][..n] == steps[..n];
    HoldStep(AfterSteps(ttl, steps[..n]), steps[n], id, raceId);
    assert !NamesAgain(ttl, steps, n, raceId);
    assert HoldsAt(ttl, steps[..n], n, id, raceId);
    HoldsBefore(ttl, steps, d, id, raceId);
  }

  lemma LastLateBefore(ttl: int, steps: seq<Step>, d: nat, k: nat, raceId: RaceId)
    requires |steps| > 0 && !StoresLate(ttl, steps, d, |steps| - 1, raceId)
    ensures LastLate(ttl, steps, d, k, raceId) <==> LastLate(ttl, steps[..|steps| - 1], d, k, raceId)
  {
    var before := steps[..|steps| - 1];
    forall j: nat | j < |before|
      ensures StoresLate(ttl, steps, d, j, raceId) == StoresLate(ttl, before, d, j, raceId)
    {
      LateBefore(ttl, steps, d, j, raceId);
    }
    if k < |before| {
      if LastLate(ttl, before, d, k, raceId) {
        forall j | k < j < |steps| ensures !StoresLate(ttl, steps, d, j, raceId) {
          assert j < |before| ==> StoresLate(ttl, steps, d, j, raceId) == StoresLate(ttl, before, d, j, raceId);
        }
      }
      if LastLate(ttl, steps, d, k, raceId) {
        forall j | k < j < |before| ensures !StoresLate(ttl, before, d, j, raceId) {
          assert !StoresLate(ttl, steps, d, j, raceId);
        }
      }
    }
  }

  lemma StoreIsLate(ttl: int, steps: seq<Step>, d: nat, raceId: RaceId)
    requires GoneSince(ttl, steps, d, raceId) && |steps| > d + 1
    requires OnlyLate(ttl, steps[..|steps| - 1], d, raceId)
    ensures var n := |steps| - 1;
      var w := WriteOf(AfterSteps(ttl, steps[..n]), steps[n]);
      (w.Some? && w.value.raceId == raceId <==> StoresLate(ttl, steps, d, n, raceId))
      && (w.Some? && w.value.raceId == raceId ==> w.value.Store? && w.value.now == steps[n].now)
  {
    var n := |steps| - 1;
    var g := AfterSteps(ttl, steps[..n]);
    assert steps[..n][..n] == steps[..n];
    assert !NamesAgain(ttl, steps, n, raceId);
    if steps[n].Put? && Holds(g.requests, steps[n].id, raceId) {
      assert HoldsAt(ttl, steps[..n], n, steps[n].id, raceId);
      HoldsBefore(ttl, steps, d, steps[n].id, raceId);
    }
  }

  lemma {:induction false} OnlyLateStores(ttl: int, steps: seq<Step>, d: nat, raceId: RaceId)
    requires GoneSince(ttl, steps, d, raceId)
    ensures OnlyLate(ttl, steps, d, raceId)
  {
    if |steps| == d + 1 {
      AtRemoval(ttl, steps, d, raceId);
    } else {
      var n := |steps| - 1;
      GoneBefore(ttl, steps, d, raceId);
      OnlyLateStores(ttl, steps[..n], d, raceId);
      forall id | HoldsAt(ttl, steps, |steps|, id, raceId) ensures HoldsAt(ttl, steps, d, id, raceId) {
        HoldersAreOld(ttl, steps, d, raceId, id);
      }
      StoreIsLate(ttl, steps, d, raceId);
      StepAt(AfterSteps(ttl, steps[..n]), ttl, steps[n], raceId);
      LateNext(ttl, steps, d, raceId);
    }
  }

  lemma LateNext(ttl: int, steps: seq<Step>, d: nat, raceId: RaceId)
    requires GoneSince(ttl, steps, d, raceId) && |steps| > d + 1
    requires OnlyLate(ttl, steps[..|steps| - 1], d, raceId)
    ensures CacheIsLate(ttl, steps, d, raceId)
  {
    var n := |steps| - 1;
    StoreIsLate(ttl, steps, d, raceId);
    StepAt(AfterSteps(ttl, steps[..n]), ttl, steps[n], raceId);
    if StoresLate(ttl, steps, d, n, raceId) {
      assert LastLate(ttl, steps, d, n, raceId);
      forall k: nat | k != n ensures !LastLate(ttl, steps, d, k, raceId) {
      }
    } else {
      LateStays(ttl, steps, d, raceId);
    }
  }

  lemma LateStays(ttl: int, steps: seq<Step>, d: nat, raceId: RaceId)
    requires |steps| > 0 && !StoresLate(ttl, steps, d, |steps| - 1, raceId)
    requires CacheIsLate(ttl, steps[..|steps| - 1], d, raceId)
    requires var c, e := AfterSteps(ttl, steps[..|steps| - 1]).cache, AfterSteps(ttl, steps).cache;
      (raceId in e <==> raceId in c) && (raceId in e ==> e[raceId] == c[raceId])
    ensures CacheIsLate(ttl, steps, d, raceId)
  {
    var before := steps[..|steps| - 1];
    forall k: nat ensures LastLate(ttl, steps, d, k, raceId) <==> LastLate(ttl, before, d, k, raceId) {
      LastLateBefore(ttl, steps, d, k, raceId);
    }
  }

  /** A room that was removed, and that nothing has named since, is served if and only
      if a request that held an answer from before the removal has stored it after, the
      last of these less than the time to live ago. */
  lemma RemovedRoomServedIff(ttl: int, steps: seq<Step>, d: nat, raceId: RaceId, now: int)
    requires GoneSince(ttl, steps, d, raceId)
    ensures Hit(AfterSteps(ttl, steps).cache, raceId, now).Some?
       <==> exists k: nat :: LastLate(ttl, steps, d, k, raceId) && now < steps[k].now + ttl
  {
    OnlyLateStores(ttl, steps, d, raceId);
  }

  /** Such a run: the answer of a dead owner is stored once its room is gone. */
  lemma StaleOwnerServed(raceId: RaceId, owner: Instance)
    ensures var steps := [Check(0, raceId, 0), Answer(0, OwnedBy(owner)), Announce(Removed(raceId), 0), Put(0, 5)];
      GoneSince(10, steps, 2, raceId) && Hit(AfterSteps(10, steps).cache, raceId, 12) == Some(owner)
  {
    var steps := [Check(0, raceId, 0), Answer(0, OwnedBy(owner)), Announce(Removed(raceId), 0), Put(0, 5)];
    assert steps[..3] == steps[..4][..3] && steps[..2] == steps[..3][..2] && steps[..1] == steps[..2][..1];
    assert steps[..0] == [] && steps[..4] == steps;
    var g0 := AfterSteps(10, steps[..0]);
    assert g0 == Gate(map[], map[]) && Hit(g0.cache, raceId, 0) == None;
    assert Moved(g0.requests, g0.cache, Check(0, raceId, 0)) == map[0 := Asking(raceId)];
    var g1 := AfterSteps(10, steps[..1]);
    assert g1 == Gate(map[], map[0 := Asking(raceId)]);
    var g2 := AfterSteps(10, steps[..2]);
    assert g2 == Gate(map[], map[0 := Holding(raceId, owner)]);
    var g3 := AfterSteps(10, steps[..3]);
    assert g3 == g2;
  }

  // ------------------------------------------------------------- the gateway

  const WRAP: nat := 0x1_0000_0000_0000_0000

  class Router {
    const cacheTTL: int
    var cache: Cache
    var requests: map<nat, Request>
    var next: nat
    ghost var steps: seq<Step>

    function Value(): Gate
      reads this
    {
      Gate(cache, requests)
    }

    ghost predicate Valid()
      reads this
    {
      next < WRAP && Value() == AfterSteps(cacheTTL, steps)
    }

    constructor (cacheTTL: int)
      ensures Valid() && this.cacheTTL == cacheTTL && steps == [] && next == 0
    {
      this.cacheTTL := cacheTTL;
      cache, requests := map[], map[];
      next := 0;
      steps := [];
    }

    method CheckCache(id: nat, raceId: RaceId, now: int)
      requires Valid() && id !in requests
      modifies this`requests, this`steps
      ensures Valid() && steps == old(steps) + [Check(id, raceId, now)]
      ensures requests == old(requests)[id := Checked(cache, raceId, now)]
    {
      if raceId in cache && now < cache[raceId].expiresAt {
        requests := requests[id := Done(Found(cache[raceId].instance))];
      } else {
        requests := requests[id := Asking(raceId)];
      }
      AddStep(Check(id, raceId, now));
    }

    method TakeAnswer(id: nat, owner: Ownership)
      requires Valid() && id in requests && requests[id].Asking?
      modifies this`requests, this`steps
      ensures Valid() && steps == old(steps) + [Answer(id, owner)]
      ensures requests == old(requests)[id := Answered(old(requests)[id].raceId, owner)]
    {
      match owner {
        case LookupFailed => requests := requests[id := Done(Failed)];
        case NoOwner => requests := requests[id := Done(NotFound)];
        case OwnedBy(instance) => requests := requests[id := Holding(requests[id].raceId, instance)];
      }
      AddStep(Answer(id, owner));
    }

    method StoreOwner(id: nat, now: int)
      requires Valid() && id in requests && requests[id].Holding?
      modifies this`cache, this`requests, this`steps
      ensures Valid() && steps == old(steps) + [Put(id, now)]
      ensures requests == old(requests)[id := Done(Found(old(requests)[id].instance))]
    {
      var r := requests[id];
      cache := cache[r.raceId := Entry(r.instance, now + cacheTTL)];
      requests := requests[id := Done(Found(r.instance))];
      AddStep(Put(id, now));
    }

    /** A request with nothing in between: `now` is read at the cache check, `later` at
        the store; `owner` is what the registry answers on a miss. */
    method ResolveTarget(id: nat, raceId: RaceId, now: int, owner: Ownership, later: int) returns (r: Resolution)
      requires Valid() && id !in requests
      modifies this`cache, this`requests, this`steps
      ensures Valid()
      ensures forall i ::
                (Hit(old(cache), raceId, now) == Some(i)
                 <==> Vouched(WritesOf(cacheTTL, old(steps)), cacheTTL, raceId, i, now))
      ensures var hit := Hit(old(cache), raceId, now);
        var asked := old(steps) + [Check(id, raceId, now)];
        if hit.Some? then r == Found(hit.value) && steps == asked
        else match owner
          case LookupFailed => r == Failed && steps == asked + [Answer(id, owner)]
          case NoOwner => r == NotFound && steps == asked + [Answer(id, owner)]
          case OwnedBy(i) => r == Found(i) && steps == asked + [Answer(id, owner)] + [Put(id, later)]
    {
      HitIffVouched(cacheTTL, steps, raceId, now);
      CheckCache(id, raceId, now);
      if requests[id].Done? {
        return requests[id].resolution;
      }
      TakeAnswer(id, owner);
      if requests[id].Done? {
        return requests[id].resolution;
      }
      StoreOwner(id, later);
      return requests[id].resolution;
    }

    method HandleEvent(ev: RoomEvent, now: int)
      requires Valid()
      modifies this`cache, this`steps
      ensures Valid() && steps == old(steps) + [Announce(ev, now)]
    {
      AnnounceStep(Value(), cacheTTL, ev, now);
      match ev {
        case Created(raceId, instance) => cache := cache[raceId := Entry(instance, now + cacheTTL)];
        case Removed(raceId) => cache := cache - {raceId};
        case Unknown(_) =>
      }
      AddStep(Announce(ev, now));
    }

    ghost method AddStep(s: Step)
      requires Value() == Stepped(AfterSteps(cacheTTL, steps), cacheTTL, s)
      modifies this`steps
      ensures steps == old(steps) + [s] && Value() == AfterSteps(cacheTTL, steps)
    {
      steps := steps + [s];
      assert steps[..|steps| - 1] == old(steps);
    }

    /** Event k is handled at clock reading nows[k]. */
    method WatchRoomEvents(events: seq<RoomEvent>, nows: seq<int>)
      requires Valid() && |nows| == |events|
      modifies this`cache, this`steps
      ensures Valid() && steps == old(steps) + Announced(events, nows)
    {
      var k := 0;
      while k < |events|
        invariant k <= |events| && Valid()
        invariant steps == old(steps) + Announced(events, nows)[..k]
      {
        HandleEvent(events[k], nows[k]);
        k := k + 1;
      }
      assert Announced(events, nows)[..k] == Announced(events, nows);
    }

    method NextBackend(backends: seq<string>) returns (r: Option<string>)
      requires Valid()
      modifies this`next
      ensures Valid()
      ensures |backends| == 0 ==> r == None && next == old(next)
      ensures |backends| > 0 ==> r == Some(backends[Pick(old(next), |backends|)]) && next == (old(next) + 1) % WRAP
    {
      if |backends| == 0 {
        return None;
      }
      CounterBack(next);
      next := (next + 1) % WRAP;
      return Some(backends[((next + WRAP - 1) % WRAP) % |backends|]);
    }
  }

  lemma AnnounceStep(g: Gate, ttl: int, ev: RoomEvent, now: int)
    ensures Stepped(g, ttl, Announce(ev, now)) == Gate(
              match ev
              case Created(raceId, instance) => g.cache[raceId := Entry(instance, now + ttl)]
              case Removed(raceId) => g.cache - {raceId}
              case Unknown(_) => g.cache,
              g.requests)
  {
  }

  function Announced(events: seq<RoomEvent>, nows: seq<int>): (r: seq<Step>)
    requires |nows| == |events|
    ensures |r| == |events|
    ensures forall k :: 0 <= k < |r| ==> r[k] == Announce(events[k], nows[k])
  {
    seq(|events|, k requires 0 <= k < |events| => Announce(events[k], nows[k]))
  }

  lemma HitIffVouched(ttl: int, steps: seq<Step>, raceId: RaceId, now: int)
    ensures forall i ::
              (Hit(AfterSteps(ttl, steps).cache, raceId, now) == Some(i)
               <==> Vouched(WritesOf(ttl, steps), ttl, raceId, i, now))
  {
    CacheIsItsWrites(ttl, steps);
    forall i {
      ServedIffVouched(WritesOf(ttl, steps), ttl, raceId, i, now);
    }
  }

  /** The counter before an increment, recovered from the counter after it. */
  lemma CounterBack(c: nat)
    requires c < WRAP
    ensures ((c + 1) % WRAP + WRAP - 1) % WRAP == c == c % WRAP
  {
  }

  // ------------------------------------------------------------- round robin

  /** The backend that call number `call` picks from a pool of n; the counter holds
      64 bits. */
  function Pick(call: nat, n: nat): (r: nat)
    requires n > 0
    ensures r < n
  {
    (call % WRAP) % n
  }

  /** How many of the calls start, ..., start + m - 1 pick backend i. */
  function Picks(start: nat, m: nat, n: nat, i: nat): nat
    requires n > 0
  {
    if m == 0 then 0 else Picks(start, m - 1, n, i) + if Pick(start + m - 1, n) == i then 1 else 0
  }

  /** Over this window no backend is picked two times more than another. */
  ghost predicate Even(start: nat, m: nat, n: nat)
    requires n > 0
  {
    forall i, j :: 0 <= i < n && 0 <= j < n ==> Picks(start, m, n, i) <= Picks(start, m, n, j) + 1
  }

  /** The number of x' < x that leave remainder i. */
  function Turns(x: nat, n: nat, i: nat): nat
    requires n > 0
  {
    x / n + if i < x % n then 1 else 0
  }

  lemma DivNext(x: nat, n: nat)
    requires n > 0
    ensures if x % n == n - 1 then (x + 1) / n == x / n + 1 && (x + 1) % n == 0
            else (x + 1) / n == x / n && (x + 1) % n == x % n + 1
  {
    var q, r := x / n, x % n;
    assert x + 1 == n * q + (r + 1);
    if r == n - 1 {
      assert x + 1 == n * (q + 1);
      DivUnique(x + 1, n, q + 1, 0);
    } else {
      DivUnique(x + 1, n, q, r + 1);
    }
  }

  lemma {:induction false} MulGrows(n: nat, b: nat, a: nat)
    requires b <= a
    ensures n * b <= n * a
    decreases a - b
  {
    if b < a {
      MulGrows(n, b + 1, a);
    }
  }

  lemma MulOrder(n: nat, a: nat, b: nat)
    requires n * a < n * b + n
    ensures a <= b
  {
    if a > b {
      assert n * (b + 1) == n * b + n;
      MulGrows(n, b + 1, a);
    }
  }

  lemma DivUnique(x: nat, n: nat, q: nat, r: nat)
    requires 0 <= r < n && x == n * q + r
    ensures x / n == q && x % n == r
  {
    assert x == n * (x / n) + x % n;
    MulOrder(n, q, x / n);
    MulOrder(n, x / n, q);
  }

  lemma TurnsNext(x: nat, n: nat, i: nat)
    requires i < n
    ensures Turns(x + 1, n, i) == Turns(x, n, i) + if x % n == i then 1 else 0
  {
    DivNext(x, n);
  }

  lemma {:induction false} PicksAreTurns(start: nat, m: nat, n: nat, i: nat)
    requires i < n
    requires forall x :: start <= x < start + m ==> Pick(x, n) == x % n
    ensures Picks(start, m, n, i) == Turns(start + m, n, i) - Turns(start, n, i)
  {
    if m > 0 {
      PicksAreTurns(start, m - 1, n, i);
      TurnsNext(start + m - 1, n, i);
      assert Pick(start + m - 1, n) == (start + m - 1) % n;
    }
  }

  lemma EvenWherePlain(start: nat, m: nat, n: nat)
    requires n > 0
    requires forall x :: start <= x < start + m ==> Pick(x, n) == x % n
    ensures Even(start, m, n)
  {
    forall i, j | 0 <= i < n && 0 <= j < n ensures Picks(start, m, n, i) <= Picks(start, m, n, j) + 1 {
      PicksAreTurns(start, m, n, i);
      PicksAreTurns(start, m, n, j);
    }
  }

  /** Over any window in which the counter does not wrap, the load is even. */
  lemma EvenWithoutWrap(start: nat, m: nat, n: nat)
    requires n > 0 && start + m <= WRAP
    ensures Even(start, m, n)
  {
    forall x: nat | start <= x < start + m ensures Pick(x, n) == x % n {
      DivUnique(x, WRAP, 0, x);
    }
    EvenWherePlain(start, m, n);
  }

  lemma ModOfMod(x: nat, n: nat)
    requires n > 0 && WRAP % n == 0
    ensures Pick(x, n) == x % n
  {
    var a, b, c := x / WRAP, x % WRAP, WRAP / n;
    assert WRAP == n * c;
    assert x == n * c * a + b;
    assert n * c * a == n * (c * a);
    assert x == n * (c * a + b / n) + b % n;
    DivUnique(x, n, c * a + b / n, b % n);
  }

  /** The last window before the wrap, and one call after it: backend 0 is picked at
      both ends and the last backend not at all. */
  lemma WrapSkips(n: nat)
    requires n > 0 && WRAP % n != 0
    ensures !Even(WRAP - WRAP % n, WRAP % n + 1, n)
  {
    var k := WRAP % n;
    var start := WRAP - k;
    forall x: nat | start <= x < start + k ensures Pick(x, n) == x % n {
      DivUnique(x, WRAP, 0, x);
    }
    Round(start, WRAP / n, k, n, 0);
    Round(start, WRAP / n, k, n, n - 1);
    assert Pick(WRAP, n) == 0 by {
      DivUnique(WRAP, WRAP, 1, 0);
      DivUnique(0, n, 0, 0);
    }
    PicksNext(start, k, n, 0);
    PicksNext(start, k, n, n - 1);
  }

  lemma PicksNext(start: nat, m: nat, n: nat, i: nat)
    requires n > 0
    ensures Picks(start, m + 1, n, i) == Picks(start, m, n, i) + if Pick(start + m, n) == i then 1 else 0
  {
  }

  /** A window shorter than the pool that starts a round picks each backend before
      its end once, and the others not at all. */
  lemma Round(start: nat, q: nat, k: nat, n: nat, i: nat)
    requires k < n && i < n && start == n * q
    requires forall x :: start <= x < start + k ==> Pick(x, n) == x % n
    ensures Picks(start, k, n, i) == if i < k then 1 else 0
  {
    PicksAreTurns(start, k, n, i);
    TurnsOfRound(q, k, n, i);
  }

  lemma TurnsOfRound(q: nat, k: nat, n: nat, i: nat)
    requires k < n && i < n
    ensures Turns(n * q + k, n, i) - Turns(n * q, n, i) == if i < k then 1 else 0
  {
    DivUnique(n * q, n, q, 0);
    DivUnique(n * q + k, n, q, k);
  }

  /** The load is even over every window if and only if the pool size divides 2^64. */
  lemma EvenAlwaysIff(n: nat)
    requires n > 0
    ensures (forall start: nat, m: nat :: Even(start, m, n)) <==> WRAP % n == 0
  {
    if WRAP % n == 0 {
      forall start: nat, m: nat ensures Even(start, m, n) {
        forall x: nat | start <= x < start + m ensures Pick(x, n) == x % n {
          ModOfMod(x, n);
        }
        EvenWherePlain(start, m, n);
      }
    } else {
      WrapSkips(n);
    }
  }
}
