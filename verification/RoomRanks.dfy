/** Ranks over any list of events, including rejoins of evicted users: every
    result list the actor hands over is fairly ranked and has one winner at most. */
module RoomRanks {
  import opened Collections
  import opened Options
  import opened RoomModel
  import opened Shared

  /** A place where a participant record is kept. */
  datatype Slot = Live(user: UserId) | Departed(user: UserId)

  predicate Held(p: People, k: Slot) {
    match k
    case Live(u) => u in p.live
    case Departed(u) => u in p.departed
  }

  function At(p: People, k: Slot): Participant
    requires Held(p, k)
  {
    match k
    case Live(u) => p.live[u]
    case Departed(u) => p.departed[u]
  }

  predicate Ranked(p: People, k: Slot) {
    Held(p, k) && At(p, k).finishRank.Some?
  }

  function RankOf(p: People, k: Slot): int
    requires Ranked(p, k)
  {
    At(p, k).finishRank.value
  }

  /** Unranked records plus ranks given out never exceed the head count. */
  function Load(p: People): nat {
    |Unranked(p.live)| + |Unranked(p.departed)| + p.finishedCount
  }

  ghost predicate RankInv(p: People) {
    && (forall k :: Held(p, k) ==> At(p, k).userId == k.user)
    && (forall k :: Ranked(p, k) ==> 1 <= RankOf(p, k) <= p.finishedCount)
    && (forall k, l :: Ranked(p, k) && Ranked(p, l) && k != l ==> RankOf(p, k) != RankOf(p, l))
    && Load(p) <= p.total
  }

  // ------------------------------------------------- counting the unranked

  lemma UnrankedPut(m: map<UserId, Participant>, u: UserId, q: Participant)
    ensures Unranked(m[u := q]) == if q.finishRank.None? then Unranked(m) + {u} else Unranked(m) - {u}
  {
  }

  lemma UnrankedCut(m: map<UserId, Participant>, u: UserId)
    ensures Unranked(m - {u}) == Unranked(m) - {u}
  {
  }

  lemma UnrankedCount(m: map<UserId, Participant>, u: UserId, q: Participant)
    ensures |Unranked(m[u := q])| ==
              |Unranked(m)| + (if q.finishRank.None? && u !in Unranked(m) then 1 else 0)
                            - (if q.finishRank.Some? && u in Unranked(m) then 1 else 0)
  {
    UnrankedPut(m, u, q);
  }

  lemma LoadAfter(p: People, target: int, i: Input)
    requires Load(p) <= p.total
    ensures var r := Advance(p, target, i); Load(r) <= r.total
  {
    match i.ev
    case Joined(u, name) => UnrankedCount(p.live, u, Advance(p, target, i).live[u]);
    case Telemetry(u, q, w, pace) =>
      if Accepts(p, u, q) { UnrankedCount(p.live, u, Advance(p, target, i).live[u]); }
    case Disconnected(u) =>
      if u in p.live { UnrankedCount(p.live, u, Detached(p.live[u], i.env.now)); }
    case Evicted(u) => if Honoured(p, u) { LoadDepart(p, u); }
    case Left(u) =>
      if u in p.live {
        if p.active { LoadDepart(p, u); } else { UnrankedCut(p.live, u); }
      }
    case _ =>
  }

  lemma LoadDepart(p: People, u: UserId)
    requires u in p.live
    ensures Load(Depart(p, u)) <= Load(p)
  {
    UnrankedCut(p.live, u);
    UnrankedPut(p.departed, u, p.live[u]);
  }

  // ------------------------------------------------------ ranks stay sound

  /** Where the record now at k was kept before the event. */
  function Origin(p: People, ev: Event, k: Slot): Slot {
    if k.Departed? && DepartsNow(p, ev, k.user) then Live(k.user) else k
  }

  /** An event moves records about, and gives out at most the next rank. */
  lemma SlotAfter(p: People, target: int, i: Input, k: Slot)
    requires Held(Advance(p, target, i), k)
    ensures var r := Advance(p, target, i);
      var o := Origin(p, i.ev, k);
      if !Held(p, o) then i.ev.Joined? && k == Live(i.ev.user) && At(r, k) == Newcomer(k.user, i.ev.name, i.env.now)
      else if k.Live? && CrossesNow(p, target, i.ev, k.user) then
        At(p, o).finishRank.None? && At(r, k).finishRank == Some(p.finishedCount + 1)
          && At(r, k).finishedAt == Some(i.env.now) && r.finishedCount == p.finishedCount + 1
          && At(r, k).userId == At(p, o).userId
      else
        At(r, k).finishRank == At(p, o).finishRank && At(r, k).finishedAt == At(p, o).finishedAt
          && At(r, k).userId == At(p, o).userId
  {
  }

  lemma OriginsApart(p: People, target: int, i: Input, k: Slot, l: Slot)
    requires Held(Advance(p, target, i), k) && Held(Advance(p, target, i), l) && k != l
    ensures Origin(p, i.ev, k) != Origin(p, i.ev, l)
  {
  }

  lemma SlotSound(p: People, target: int, i: Input, k: Slot)
    requires RankInv(p) && Held(Advance(p, target, i), k)
    ensures var r := Advance(p, target, i);
      At(r, k).userId == k.user && (Ranked(r, k) ==> 1 <= RankOf(r, k) <= r.finishedCount)
  {
    SlotAfter(p, target, i, k);
    var o := Origin(p, i.ev, k);
    assert Held(p, o) ==> At(p, o).userId == o.user;
    assert Ranked(p, o) ==> 1 <= RankOf(p, o) <= p.finishedCount;
  }

  lemma PairSound(p: People, target: int, i: Input, k: Slot, l: Slot)
    requires RankInv(p) && k != l
    requires Ranked(Advance(p, target, i), k) && Ranked(Advance(p, target, i), l)
    ensures RankOf(Advance(p, target, i), k) != RankOf(Advance(p, target, i), l)
  {
    SlotAfter(p, target, i, k);
    SlotAfter(p, target, i, l);
    OriginsApart(p, target, i, k, l);
    var a, b := Origin(p, i.ev, k), Origin(p, i.ev, l);
    assert Ranked(p, a) && Ranked(p, b) ==> RankOf(p, a) != RankOf(p, b);
    assert Ranked(p, a) ==> RankOf(p, a) <= p.finishedCount;
    assert Ranked(p, b) ==> RankOf(p, b) <= p.finishedCount;
  }

  lemma AdvanceKeepsRanks(p: People, target: int, i: Input)
    requires RankInv(p)
    ensures RankInv(Advance(p, target, i))
    ensures p.total <= Advance(p, target, i).total <= p.total + 1
  {
    var r := Advance(p, target, i);
    LoadAfter(p, target, i);
    forall k | Held(r, k)
      ensures At(r, k).userId == k.user
      ensures Ranked(r, k) ==> 1 <= RankOf(r, k) <= r.finishedCount
    {
      SlotSound(p, target, i, k);
    }
    forall k, l | Ranked(r, k) && Ranked(r, l) && k != l
      ensures RankOf(r, k) != RankOf(r, l)
    {
      PairSound(p, target, i, k, l);
    }
  }

  lemma {:induction false} RanksAlwaysSound(target: int, ins: seq<Input>)
    ensures RankInv(March(NOBODY, target, ins))
  {
    if |ins| > 0 {
      RanksAlwaysSound(target, ins[..|ins| - 1]);
      AdvanceKeepsRanks(March(NOBODY, target, ins[..|ins| - 1]), target, ins[|ins| - 1]);
    }
  }

  // ---------------------------------------------------------- result lists

  predicate Finisher(r: ParticipantResult) {
    r.finishTimeMs.Some?
  }

  predicate Won(r: ParticipantResult) {
    r.finishRank == Some(1)
  }

  /** A fair result list for a race of n people: everyone ranked within 1..n,
      finishers apart and ahead of everyone else, the rest sharing rank n, and
      one winner at most. */
  ghost predicate FairlyRanked(rs: seq<ParticipantResult>, n: nat) {
    && (forall j :: 0 <= j < |rs| ==> rs[j].finishRank.Some? && 1 <= rs[j].finishRank.value <= n)
    && (forall j, k :: 0 <= j < |rs| && 0 <= k < |rs| && j != k && Finisher(rs[j]) && Finisher(rs[k]) ==>
          rs[j].finishRank != rs[k].finishRank)
    && (forall j, k :: 0 <= j < |rs| && 0 <= k < |rs| && Finisher(rs[j]) && !Finisher(rs[k]) ==>
          rs[j].finishRank.value < rs[k].finishRank.value)
    && (forall j :: 0 <= j < |rs| && !Finisher(rs[j]) ==> rs[j].finishRank.value == n)
    && (forall j, k :: 0 <= j < k < |rs| ==> !(Won(rs[j]) && Won(rs[k])))
  }

  /** Rank and finish time are recorded together. */
  ghost predicate Stamped(p: People) {
    forall k :: Held(p, k) ==> (At(p, k).finishRank.Some? <==> At(p, k).finishedAt.Some?)
  }

  lemma AdvanceKeepsStamps(p: People, target: int, i: Input)
    requires Stamped(p)
    ensures Stamped(Advance(p, target, i))
  {
    var r := Advance(p, target, i);
    forall k | Held(r, k) ensures At(r, k).finishRank.Some? <==> At(r, k).finishedAt.Some? {
      SlotAfter(p, target, i, k);
    }
  }

  lemma {:induction false} AlwaysStamped(target: int, ins: seq<Input>)
    ensures Stamped(March(NOBODY, target, ins))
  {
    if |ins| > 0 {
      AlwaysStamped(target, ins[..|ins| - 1]);
      AdvanceKeepsStamps(March(NOBODY, target, ins[..|ins| - 1]), target, ins[|ins| - 1]);
    }
  }

  /** The record the j-th result was built from, when the first n are the live ones. */
  function SlotOf(rs: seq<ParticipantResult>, n: nat, j: nat): Slot
    requires n <= |rs| && j < |rs|
  {
    if j < n then Live(rs[j].userId) else Departed(rs[j].userId)
  }

  lemma ResultSlots(p: People, startedAt: int, rs: seq<ParticipantResult>, n: nat)
    requires ListsUpTo(n, rs, p, startedAt)
    ensures forall j :: 0 <= j < |rs| ==>
      Held(p, SlotOf(rs, n, j)) && rs[j] == BuildResult(At(p, SlotOf(rs, n, j)), p.total, startedAt)
    ensures forall j, k :: 0 <= j < k < |rs| ==> SlotOf(rs, n, j) != SlotOf(rs, n, k)
  {
    forall j | 0 <= j < |rs|
      ensures Held(p, SlotOf(rs, n, j)) && rs[j] == BuildResult(At(p, SlotOf(rs, n, j)), p.total, startedAt)
    {
      assert j < n ==> rs[..n][j] == rs[j];
      assert j >= n ==> rs[n..][j - n] == rs[j];
    }
    forall j, k | 0 <= j < k < |rs| ensures SlotOf(rs, n, j) != SlotOf(rs, n, k) {
      if k < n {
        assert rs[..n][j].userId != rs[..n][k].userId;
      } else if j >= n {
        assert rs[n..][j - n].userId != rs[n..][k - n].userId;
      }
    }
  }

  /** Two different unranked records weigh two. */
  lemma TwoUnranked(p: People, k: Slot, l: Slot)
    requires Held(p, k) && Held(p, l) && k != l
    requires At(p, k).finishRank.None? && At(p, l).finishRank.None?
    ensures Load(p) >= 2 + p.finishedCount
  {
    OneUnranked(p, k);
    OneUnranked(p, l);
    if k.Live? && l.Live? {
      assert {k.user, l.user} <= Unranked(p.live);
      SubsetSize({k.user, l.user}, Unranked(p.live));
    } else if k.Departed? && l.Departed? {
      assert {k.user, l.user} <= Unranked(p.departed);
      SubsetSize({k.user, l.user}, Unranked(p.departed));
    }
  }

  lemma OneUnranked(p: People, k: Slot)
    requires Held(p, k) && At(p, k).finishRank.None?
    ensures Load(p) >= 1 + p.finishedCount
    ensures k.Live? ==> |Unranked(p.live)| >= 1
    ensures k.Departed? ==> |Unranked(p.departed)| >= 1
  {
    if k.Live? {
      assert k.user in Unranked(p.live);
    } else {
      assert k.user in Unranked(p.departed);
    }
  }

  /** One record's result: ranked within the head count, and exactly at it if unfinished. */
  lemma ResultFair(p: People, startedAt: int, k: Slot)
    requires RankInv(p) && Stamped(p) && Held(p, k)
    ensures var r := BuildResult(At(p, k), p.total, startedAt);
      1 <= r.finishRank.value <= p.total && (Finisher(r) <==> Ranked(p, k)) &&
      (!Finisher(r) ==> r.finishRank.value == p.total && p.finishedCount < p.total)
  {
    if At(p, k).finishRank.None? { OneUnranked(p, k); }
    assert Ranked(p, k) ==> 1 <= RankOf(p, k) <= p.finishedCount;
  }

  /** Two records' results: apart if both finished, in order if one did, and never both winners. */
  lemma PairFair(p: People, startedAt: int, k: Slot, l: Slot)
    requires RankInv(p) && Stamped(p) && Held(p, k) && Held(p, l) && k != l
    ensures var q := BuildResult(At(p, k), p.total, startedAt);
      var r := BuildResult(At(p, l), p.total, startedAt);
      && (Finisher(q) && Finisher(r) ==> q.finishRank.value != r.finishRank.value)
      && (Finisher(q) && !Finisher(r) ==> q.finishRank.value < r.finishRank.value)
      && !(Won(q) && Won(r))
  {
    ResultFair(p, startedAt, k);
    ResultFair(p, startedAt, l);
    assert Ranked(p, k) ==> 1 <= RankOf(p, k) <= p.finishedCount;
    assert Ranked(p, l) ==> 1 <= RankOf(p, l) <= p.finishedCount;
    assert Ranked(p, k) && Ranked(p, l) ==> RankOf(p, k) != RankOf(p, l);
    if !Ranked(p, k) && !Ranked(p, l) { TwoUnranked(p, k, l); }
  }

  /** Whatever order the maps are iterated in, the results are fairly ranked. */
  lemma ResultsFair(p: People, startedAt: int, rs: seq<ParticipantResult>)
    requires RankInv(p) && Stamped(p) && ListingOf(rs, p, startedAt)
    ensures FairlyRanked(rs, p.total)
  {
    var n: nat :| ListsUpTo(n, rs, p, startedAt);
    ResultSlots(p, startedAt, rs, n);
    forall j | 0 <= j < |rs|
      ensures 1 <= rs[j].finishRank.value <= p.total
      ensures !Finisher(rs[j]) ==> rs[j].finishRank.value == p.total
    {
      ResultFair(p, startedAt, SlotOf(rs, n, j));
    }
    forall j, k | 0 <= j < |rs| && 0 <= k < |rs| && j != k
      ensures Finisher(rs[j]) && Finisher(rs[k]) ==> rs[j].finishRank.value != rs[k].finishRank.value
      ensures Finisher(rs[j]) && !Finisher(rs[k]) ==> rs[j].finishRank.value < rs[k].finishRank.value
      ensures !(Won(rs[j]) && Won(rs[k]))
    {
      PairFair(p, startedAt, SlotOf(rs, n, j), SlotOf(rs, n, k));
    }
  }

  // ------------------------------------------------------------- main result

  ghost predicate FairFinish(e: Effect, n: nat) {
    e.FinishCall? ==> exists m: nat :: m <= n && FairlyRanked(e.results, m)
  }

  /** Every list ever handed to the database, in any run, is fairly ranked. */
  lemma {:induction false} EveryFinishFair(target: int, startedAt: int, ins: seq<Input>)
    requires HonestRun(Opened(target, startedAt), ins)
    ensures var r := Run(Opened(target, startedAt), ins);
      forall k :: 0 <= k < |r.trace| ==> FairFinish(r.trace[k], r.people.total)
  {
    if |ins| > 0 {
      var before := ins[..|ins| - 1];
      var i := ins[|ins| - 1];
      var s := Run(Opened(target, startedAt), before);
      var r := Step(s, i);
      EveryFinishFair(target, startedAt, before);
      RunPeople(Opened(target, startedAt), before);
      RunPeople(Opened(target, startedAt), ins);
      RanksAlwaysSound(target, before);
      AdvanceKeepsRanks(s.people, target, i);
      RanksAlwaysSound(target, ins);
      AlwaysStamped(target, ins);
      forall k | 0 <= k < |r.trace| ensures FairFinish(r.trace[k], r.people.total) {
        if k < |s.trace| {
          assert r.trace[k] == s.trace[k];
        } else if r.trace[k].FinishCall? {
          assert Genuine(r.trace[k], r);
          ResultsFair(r.people, r.startedAt, r.trace[k].results);
        }
      }
    }
  }
}
