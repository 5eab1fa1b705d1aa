/** What a run of the room keeps of its participants: head count, finish
    records, telemetry and departures, over every list of events. */
module RoomHistory {
  import opened Collections
  import opened Options
  import opened RoomModel
  import opened RoomRanks
  import opened Shared

  function Before(ins: seq<Input>): seq<Input>
    requires |ins| > 0
  {
    ins[..|ins| - 1]
  }

  function Last(ins: seq<Input>): Input
    requires |ins| > 0
  {
    ins[|ins| - 1]
  }

  // ----------------------------------------------------------- conservation

  predicate Rejoins(p: People, ev: Event) {
    ev.Joined? && ev.user in p.evicted
  }

  /** What the gateway's check at the handshake ensures: nobody evicted joins again. */
  predicate NoRejoin(target: int, ins: seq<Input>) {
    |ins| == 0 ||
    (NoRejoin(target, Before(ins)) && !Rejoins(March(NOBODY, target, Before(ins)), Last(ins).ev))
  }

  predicate Withdraws(p: People, ev: Event) {
    ev.Left? && ev.user in p.live && !p.active
  }

  function Withdrawals(target: int, ins: seq<Input>): nat {
    if |ins| == 0 then 0
    else Withdrawals(target, Before(ins)) +
         if Withdraws(March(NOBODY, target, Before(ins)), Last(ins).ev) then 1 else 0
  }

  predicate Parted(p: People) {
    p.live.Keys !! p.departed.Keys && p.evicted == p.departed.Keys
  }

  ghost predicate RankHeld(p: People, r: int) {
    exists k :: Ranked(p, k) && RankOf(p, k) == r
  }

  /** The ranks handed out are all still held by someone. */
  ghost predicate AllRanksHeld(p: People) {
    forall r :: 1 <= r <= p.finishedCount ==> RankHeld(p, r)
  }

  /** Live and departed stay apart exactly as long as nobody evicted joins again. */
  lemma PartedIff(p: People, target: int, i: Input)
    requires Parted(p)
    ensures Parted(Advance(p, target, i)) <==> !Rejoins(p, i.ev)
  {
    var r := Advance(p, target, i);
    if Rejoins(p, i.ev) {
      assert i.ev.user in r.live.Keys * r.departed.Keys;
    }
  }

  lemma KeysAfter(p: People, target: int, i: Input)
    ensures var r := Advance(p, target, i);
      && r.live.Keys == (if i.ev.Joined? then p.live.Keys + {i.ev.user}
                         else if (i.ev.Left? || i.ev.Evicted?) && (DepartsNow(p, i.ev, i.ev.user) || Withdraws(p, i.ev))
                         then p.live.Keys - {i.ev.user} else p.live.Keys)
      && r.departed.Keys == (if (i.ev.Left? || i.ev.Evicted?) && DepartsNow(p, i.ev, i.ev.user)
                             then p.departed.Keys + {i.ev.user} else p.departed.Keys)
      && r.total == p.total + (if i.ev.Joined? && i.ev.user !in p.live then 1 else 0)
  {
  }

  lemma HeadCount(p: People, target: int, i: Input)
    requires Parted(p) && !Rejoins(p, i.ev)
    ensures var r := Advance(p, target, i);
      r.total - |r.live| - |r.departed| ==
      p.total - |p.live| - |p.departed| + (if Withdraws(p, i.ev) then 1 else 0)
  {
    var r := Advance(p, target, i);
    KeysAfter(p, target, i);
    if i.ev.Joined? || i.ev.Left? || i.ev.Evicted? {
      var u := i.ev.user;
      WithAndWithout(p.live.Keys, u);
      WithAndWithout(p.departed.Keys, u);
    }
  }

  lemma WithAndWithout<T>(s: set<T>, x: T)
    ensures |s + {x}| == |s| + (if x in s then 0 else 1)
    ensures |s - {x}| == |s| - (if x in s then 1 else 0)
  {
    if x in s {
      assert s + {x} == s;
    } else {
      assert s - {x} == s;
    }
  }

  /** Where the record at k goes. */
  function Destination(p: People, ev: Event, k: Slot): Slot {
    if k.Live? && DepartsNow(p, ev, k.user) then Departed(k.user) else k
  }

  /** No ranked record is ever lost, or changes its rank or finish time. */
  lemma RankedKept(p: People, target: int, i: Input, k: Slot)
    requires Parted(p) && !Rejoins(p, i.ev) && Ranked(p, k)
    requires k.Live? && Withdraws(p, i.ev) ==> k.user != i.ev.user
    ensures var r := Advance(p, target, i);
      var d := Destination(p, i.ev, k);
      Ranked(r, d) && At(r, d).finishRank == At(p, k).finishRank && At(r, d).finishedAt == At(p, k).finishedAt
  {
  }

  /** Nobody is ranked while the race is pending. */
  predicate PendingUnranked(p: People) {
    !p.active ==> p.finishedCount == 0
  }

  lemma RanksHeldAfter(p: People, target: int, i: Input)
    requires RankInv(p) && Parted(p) && PendingUnranked(p) && AllRanksHeld(p) && !Rejoins(p, i.ev)
    ensures AllRanksHeld(Advance(p, target, i))
  {
    var q := Advance(p, target, i);
    forall r | 1 <= r <= q.finishedCount
      ensures RankHeld(q, r)
    {
      if r <= p.finishedCount {
        assert RankHeld(p, r);
        var k :| Ranked(p, k) && RankOf(p, k) == r;
        RankedKept(p, target, i, k);
        assert RankOf(q, Destination(p, i.ev, k)) == r;
      } else {
        assert Ranked(q, Live(i.ev.user)) && RankOf(q, Live(i.ev.user)) == r;
      }
    }
  }

  /** Nobody is lost or counted twice: everyone who ever joined is live, departed or
      withdrew while pending, and the finishers hold exactly the ranks handed out. */
  lemma {:induction false} Conservation(target: int, ins: seq<Input>)
    requires NoRejoin(target, ins)
    ensures Conserved(March(NOBODY, target, ins), Withdrawals(target, ins))
  {
    if |ins| > 0 {
      Conservation(target, Before(ins));
      RanksAlwaysSound(target, Before(ins));
      ConservedAfter(March(NOBODY, target, Before(ins)), target, Last(ins), Withdrawals(target, Before(ins)));
    }
  }

  ghost predicate Conserved(p: People, withdrawn: nat) {
    Parted(p) && PendingUnranked(p) && AllRanksHeld(p) && p.total == |p.live| + |p.departed| + withdrawn
  }

  lemma ConservedAfter(p: People, target: int, i: Input, withdrawn: nat)
    requires RankInv(p) && Conserved(p, withdrawn) && !Rejoins(p, i.ev)
    ensures Conserved(Advance(p, target, i), withdrawn + (if Withdraws(p, i.ev) then 1 else 0))
  {
    PartedIff(p, target, i);
    HeadCount(p, target, i);
    RanksHeldAfter(p, target, i);
  }

  /** Then every result list names each user once. */
  lemma ResultUsersDistinct(p: People, startedAt: int, rs: seq<ParticipantResult>)
    requires Parted(p) && ListingOf(rs, p, startedAt)
    ensures forall j, k :: 0 <= j < k < |rs| ==> rs[j].userId != rs[k].userId
  {
    var n: nat :| ListsUpTo(n, rs, p, startedAt);
    var a, b := rs[..n], rs[n..];
    forall j, k | 0 <= j < k < |rs| ensures rs[j].userId != rs[k].userId {
      if k < n {
        assert a[j].userId != a[k].userId;
      } else if j >= n {
        assert b[j - n].userId != b[k - n].userId;
      } else {
        assert a[j].userId in p.live.Keys && b[k - n].userId in p.departed.Keys;
      }
    }
  }

  /** And it names everyone who is live or departed. */
  lemma ResultUsersAll(p: People, startedAt: int, rs: seq<ParticipantResult>)
    requires ListingOf(rs, p, startedAt)
    ensures ResultUsers(rs) == p.live.Keys + p.departed.Keys
  {
    var n: nat :| ListsUpTo(n, rs, p, startedAt);
    UsersOfParts(rs, n);
  }

  lemma UsersOfParts(rs: seq<ParticipantResult>, n: nat)
    requires n <= |rs|
    ensures ResultUsers(rs) == ResultUsers(rs[..n]) + ResultUsers(rs[n..])
  {
    assert rs == rs[..n] + rs[n..];
    assert forall r :: r in rs <==> r in rs[..n] || r in rs[n..];
  }

  // --------------------------------------------------------- finish records

  /** The one record of u, wherever it is kept. */
  function Record(p: People, u: UserId): Participant
    requires u in p.live || u in p.departed
  {
    if u in p.live then p.live[u] else p.departed[u]
  }

  lemma {:induction false} PendingAlways(target: int, ins: seq<Input>)
    ensures PendingUnranked(March(NOBODY, target, ins))
  {
    if |ins| > 0 {
      PendingAlways(target, Before(ins));
    }
  }

  predicate OnRecord(p: People, u: UserId) {
    u in p.live || u in p.departed
  }

  /** u takes a new seat: joins while not live. */
  predicate Reseats(p: People, ev: Event, u: UserId) {
    ev.Joined? && ev.user == u && u !in p.live
  }

  /** After its first n events the run gives u a new seat. */
  predicate ReseatedSince(target: int, ins: seq<Input>, n: nat, u: UserId)
    requires n <= |ins|
  {
    |ins| > n &&
    (ReseatedSince(target, Before(ins), n, u) || Reseats(March(NOBODY, target, Before(ins)), Last(ins).ev, u))
  }

  /** u, who finished with rank r and time at, still shows that, or has a newer seat
      whose rank, if any, is a later one. */
  predicate FinishSince(p: People, u: UserId, r: int, at: Option<int>, reseated: bool) {
    && OnRecord(p, u) && p.active && 1 <= r <= p.finishedCount
    && (if reseated then Record(p, u).finishRank.Some? ==> Record(p, u).finishRank.value > r
        else Record(p, u).finishRank == Some(r) && Record(p, u).finishedAt == at)
  }

  lemma FinishStep(p: People, target: int, i: Input, u: UserId, r: int, at: Option<int>, reseated: bool)
    requires FinishSince(p, u, r, at, reseated)
    ensures FinishSince(Advance(p, target, i), u, r, at, reseated || Reseats(p, i.ev, u))
  {
  }

  /** A finish, once recorded, is still on record after any run if and only if its
      user has not been given a new seat since; then its time is unchanged too. */
  lemma {:induction false} FinishIsForGood(target: int, ins: seq<Input>, n: nat, u: UserId)
    requires n <= |ins|
    requires var p := March(NOBODY, target, ins[..n]); OnRecord(p, u) && Record(p, u).finishRank.Some?
    ensures var p, q := March(NOBODY, target, ins[..n]), March(NOBODY, target, ins);
      && OnRecord(q, u)
      && (Record(q, u).finishRank == Record(p, u).finishRank <==> !ReseatedSince(target, ins, n, u))
      && (!ReseatedSince(target, ins, n, u) ==> Record(q, u).finishedAt == Record(p, u).finishedAt)
  {
    FinishThrough(target, ins, n, u);
  }

  lemma {:induction false} FinishThrough(target: int, ins: seq<Input>, n: nat, u: UserId)
    requires n <= |ins|
    requires var p := March(NOBODY, target, ins[..n]); OnRecord(p, u) && Record(p, u).finishRank.Some?
    ensures var rec := Record(March(NOBODY, target, ins[..n]), u);
      FinishSince(March(NOBODY, target, ins), u, rec.finishRank.value, rec.finishedAt, ReseatedSince(target, ins, n, u))
    decreases |ins|
  {
    if n == |ins| {
      assert ins[..n] == ins;
      var p := March(NOBODY, target, ins);
      RanksAlwaysSound(target, ins);
      PendingAlways(target, ins);
      assert Ranked(p, if u in p.live then Live(u) else Departed(u));
    } else {
      assert Before(ins)[..n] == ins[..n];
      FinishThrough(target, Before(ins), n, u);
      var rec := Record(March(NOBODY, target, ins[..n]), u);
      FinishStep(March(NOBODY, target, Before(ins)), target, Last(ins), u, rec.finishRank.value, rec.finishedAt,
                 ReseatedSince(target, Before(ins), n, u));
    }
  }

  /** Nobody who has finished is given a new seat where the gateway turns the evicted
      away, so every finish is for good there, whatever else the run does. */
  lemma {:induction false} GuardKeepsFinishes(target: int, ins: seq<Input>, n: nat, u: UserId)
    requires NoRejoin(target, ins) && n <= |ins|
    requires var p := March(NOBODY, target, ins[..n]); OnRecord(p, u) && Record(p, u).finishRank.Some?
    ensures !ReseatedSince(target, ins, n, u)
    decreases |ins|
  {
    if n < |ins| {
      assert Before(ins)[..n] == ins[..n];
      GuardKeepsFinishes(target, Before(ins), n, u);
      FinishIsForGood(target, Before(ins), n, u);
      Conservation(target, Before(ins));
    }
  }

  /** a finishes first and leaves, joins again, and leaves again. */
  function Comeback(env: Env, ch: Choice): seq<Input> {
    [Input(Joined("a", "a"), env, ch), Input(Joined("b", "b"), env, ch), Input(Activated(""), env, ch),
     Input(Telemetry("a", 1, 5, 0.0), env, ch), Input(Left("a"), env, ch),
     Input(Joined("a", "a"), env, ch), Input(Left("a"), env, ch)]
  }

  lemma ComebackFinish(env: Env, ch: Choice)
    ensures var p := March(NOBODY, 5, Comeback(env, ch)[..5]);
      p.active && "a" !in p.live && "a" in p.evicted && "a" in p.departed && p.departed["a"].finishRank == Some(1)
  {
    var ins := Comeback(env, ch);
    var s1 := Advance(NOBODY, 5, ins[0]);
    assert s1.live["a"] == Newcomer("a", "a", env.now);
    var s2 := Advance(s1, 5, ins[1]);
    assert "a" in s2.live && s2.live["a"] == s1.live["a"];
    var s3 := Advance(s2, 5, ins[2]);
    var s4 := Advance(s3, 5, ins[3]);
    assert s4.live["a"].finishRank == Some(1) && s4.active;
    MarchOne(ins, 1);
    MarchOne(ins, 2);
    MarchOne(ins, 3);
    MarchOne(ins, 4);
    MarchOne(ins, 5);
  }

  lemma RunOne(s: Room, ins: seq<Input>, n: nat)
    requires 0 < n <= |ins|
    ensures Run(s, ins[..n]) == Step(Run(s, ins[..n - 1]), ins[n - 1])
  {
    assert ins[..n][..n - 1] == ins[..n - 1];
  }

  /** Open, and nothing handed to the database yet. */
  predicate StillOpen(s: Room) {
    !s.finished && !s.cancelled && forall k :: 0 <= k < |s.trace| ==> !s.trace[k].FinishCall?
  }

  lemma OpenWhileRacing(s: Room, i: Input)
    requires StillOpen(s) && !i.ev.PendingExpired?
    requires Unranked(Advance(s.people, s.target, i).live) != {}
    ensures StillOpen(Step(s, i))
  {
  }

  /** Who is there, and how they stand, after each of the first four events. */
  lemma ComebackPeople(env: Env, ch: Choice)
    ensures var ins := Comeback(env, ch);
      && "a" in Unranked(March(NOBODY, 5, ins[..1]).live)
      && "a" in Unranked(March(NOBODY, 5, ins[..2]).live)
      && "a" in Unranked(March(NOBODY, 5, ins[..3]).live)
      && var p := March(NOBODY, 5, ins[..4]);
      && p.live.Keys == {"a", "b"} && p.live["a"].finishRank == Some(1) && p.live["b"].finishRank == None
  {
    var ins := Comeback(env, ch);
    var s1 := Advance(NOBODY, 5, ins[0]);
    assert s1.live.Keys == {"a"} && s1.live["a"] == Newcomer("a", "a", env.now);
    var s2 := Advance(s1, 5, ins[1]);
    assert s2.live.Keys == {"a", "b"} && s2.live["a"] == s1.live["a"] && s2.live["b"] == Newcomer("b", "b", env.now);
    var s3 := Advance(s2, 5, ins[2]);
    assert s3.live == s2.live && s3.active && s3.finishedCount == 0;
    MarchOne(ins, 1);
    MarchOne(ins, 2);
    MarchOne(ins, 3);
    MarchOne(ins, 4);
  }

  /** The first to finish does not end the race: a has finished, b races on, and the
      room is open, whatever the world answers. */
  lemma FirstFinishIsNotTheEnd(env: Env, ch: Choice)
    ensures var r := Run(Opened(5, 0), Comeback(env, ch)[..4]);
      && r.people.live.Keys == {"a", "b"} && StillOpen(r)
      && r.people.live["a"].finishRank == Some(1) && r.people.live["b"].finishRank == None
  {
    var ins := Comeback(env, ch);
    var s := Opened(5, 0);
    ComebackPeople(env, ch);
    RunPeople(s, ins[..4]);
    assert "b" in Unranked(March(NOBODY, 5, ins[..4]).live);
    OpenAfter(s, ins, 1);
    OpenAfter(s, ins, 2);
    OpenAfter(s, ins, 3);
    OpenAfter(s, ins, 4);
  }

  lemma OpenAfter(s: Room, ins: seq<Input>, n: nat)
    requires 0 < n <= |ins| && StillOpen(Run(s, ins[..n - 1])) && !ins[n - 1].ev.PendingExpired?
    requires Unranked(March(s.people, s.target, ins[..n]).live) != {}
    ensures StillOpen(Run(s, ins[..n]))
  {
    RunOne(s, ins, n);
    RunPeople(s, ins[..n]);
    RunPeople(s, ins[..n - 1]);
    OpenWhileRacing(Run(s, ins[..n - 1]), ins[n - 1]);
  }

  /** Without the gateway's check a finish can be lost. */
  lemma RejoinLosesFinish(env: Env, ch: Choice)
    ensures var ins := Comeback(env, ch);
      var p, q := March(NOBODY, 5, ins[..5]), March(NOBODY, 5, ins);
      !NoRejoin(5, ins) && "a" in p.departed && "a" in q.departed &&
      p.departed["a"].finishRank == Some(1) && q.departed["a"].finishRank == None
  {
    var ins := Comeback(env, ch);
    ComebackFinish(env, ch);
    var s5 := March(NOBODY, 5, ins[..5]);
    var s6 := Advance(s5, 5, ins[5]);
    assert s6.live["a"].finishRank == None && s6.active;
    MarchOne(ins, 6);
    MarchOne(ins, 7);
    assert ins[..7] == ins;
    assert Before(ins) == ins[..6] && Before(ins[..6]) == ins[..5];
    assert Rejoins(s5, ins[5].ev);
  }

  lemma MarchOne(ins: seq<Input>, n: nat)
    requires 0 < n <= |ins|
    ensures March(NOBODY, 5, ins[..n]) == Advance(March(NOBODY, 5, ins[..n - 1]), 5, ins[n - 1])
  {
    assert ins[..n][..n - 1] == ins[..n - 1];
  }

  // ------------------------------------------------------------ finish times

  /** The clock never runs backwards. */
  ghost predicate Clocked(startedAt: int, ins: seq<Input>) {
    |ins| == 0 ||
    (Clocked(startedAt, Before(ins)) && Now(startedAt, Before(ins)) <= Last(ins).env.now)
  }

  function Now(startedAt: int, ins: seq<Input>): int {
    if |ins| == 0 then startedAt else Last(ins).env.now
  }

  /** Recorded finishes lie between the start and now, in the order of their ranks. */
  ghost predicate InOrder(p: People, startedAt: int, now: int) {
    && Stamped(p)
    && (forall k :: Ranked(p, k) ==> startedAt <= At(p, k).finishedAt.value <= now)
    && (forall k, l :: Ranked(p, k) && Ranked(p, l) && RankOf(p, k) < RankOf(p, l) ==>
          At(p, k).finishedAt.value <= At(p, l).finishedAt.value)
  }

  lemma InOrderAfter(p: People, target: int, i: Input, startedAt: int, now: int)
    requires RankInv(p) && InOrder(p, startedAt, now) && startedAt <= now <= i.env.now
    ensures InOrder(Advance(p, target, i), startedAt, i.env.now)
  {
    var r := Advance(p, target, i);
    AdvanceKeepsStamps(p, target, i);
    forall k | Ranked(r, k) ensures startedAt <= At(r, k).finishedAt.value <= i.env.now {
      SlotAfter(p, target, i, k);
      assert Ranked(p, Origin(p, i.ev, k)) ==> At(p, Origin(p, i.ev, k)).finishedAt.value <= now;
    }
    forall k, l | Ranked(r, k) && Ranked(r, l) && RankOf(r, k) < RankOf(r, l)
      ensures At(r, k).finishedAt.value <= At(r, l).finishedAt.value
    {
      SlotAfter(p, target, i, k);
      SlotAfter(p, target, i, l);
      var a, b := Origin(p, i.ev, k), Origin(p, i.ev, l);
      assert Ranked(p, a) ==> RankOf(p, a) <= p.finishedCount && At(p, a).finishedAt.value <= now;
      assert Ranked(p, b) ==> RankOf(p, b) <= p.finishedCount;
      assert Ranked(p, a) && Ranked(p, b) && RankOf(p, a) < RankOf(p, b) ==>
        At(p, a).finishedAt.value <= At(p, b).finishedAt.value;
    }
  }

  lemma {:induction false} FinishesInOrder(target: int, startedAt: int, ins: seq<Input>)
    requires Clocked(startedAt, ins)
    ensures InOrder(March(NOBODY, target, ins), startedAt, Now(startedAt, ins)) && startedAt <= Now(startedAt, ins)
  {
    if |ins| > 0 {
      FinishesInOrder(target, startedAt, Before(ins));
      RanksAlwaysSound(target, Before(ins));
      InOrderAfter(March(NOBODY, target, Before(ins)), target, Last(ins), startedAt, Now(startedAt, Before(ins)));
    }
  }

  lemma PairTimes(p: People, startedAt: int, now: int, k: Slot, l: Slot)
    requires InOrder(p, startedAt, now) && Held(p, k) && Held(p, l)
    ensures var q := BuildResult(At(p, k), p.total, startedAt);
      var r := BuildResult(At(p, l), p.total, startedAt);
      && (Finisher(q) <==> Ranked(p, k))
      && (Finisher(q) ==> q.finishTimeMs.value >= 0)
      && (Finisher(q) && Finisher(r) && q.finishRank.value < r.finishRank.value ==>
            q.finishTimeMs.value <= r.finishTimeMs.value)
  {
    assert Ranked(p, k) ==> startedAt <= At(p, k).finishedAt.value;
    assert Ranked(p, k) && Ranked(p, l) && RankOf(p, k) < RankOf(p, l) ==>
      At(p, k).finishedAt.value <= At(p, l).finishedAt.value;
  }

  ghost predicate TimesInOrder(rs: seq<ParticipantResult>) {
    && (forall j :: 0 <= j < |rs| && Finisher(rs[j]) ==> rs[j].finishTimeMs.value >= 0)
    && (forall j, k :: 0 <= j < |rs| && 0 <= k < |rs| && Precedes(rs[j], rs[k]) ==>
          rs[j].finishTimeMs.value <= rs[k].finishTimeMs.value)
  }

  predicate Precedes(q: ParticipantResult, r: ParticipantResult) {
    Finisher(q) && Finisher(r) && q.finishRank.Some? && r.finishRank.Some? && q.finishRank.value < r.finishRank.value
  }

  /** So reported times are never negative, and no better-ranked finisher has a longer time. */
  lemma TimesFollowRanks(p: People, startedAt: int, now: int, rs: seq<ParticipantResult>)
    requires InOrder(p, startedAt, now) && ListingOf(rs, p, startedAt)
    ensures TimesInOrder(rs)
  {
    var n: nat :| ListsUpTo(n, rs, p, startedAt);
    ResultSlots(p, startedAt, rs, n);
    forall j, k | 0 <= j < |rs| && 0 <= k < |rs|
      ensures Finisher(rs[j]) ==> rs[j].finishTimeMs.value >= 0
      ensures Precedes(rs[j], rs[k]) ==> rs[j].finishTimeMs.value <= rs[k].finishTimeMs.value
    {
      PairTimes(p, startedAt, now, SlotOf(rs, n, j), SlotOf(rs, n, k));
    }
  }

  ghost predicate DistinctUsers(rs: seq<ParticipantResult>) {
    forall j, k :: 0 <= j < k < |rs| ==> rs[j].userId != rs[k].userId
  }

  ghost predicate TrueFinish(e: Effect) {
    e.FinishCall? ==> DistinctUsers(e.results) && TimesInOrder(e.results)
  }

  lemma StepTrue(s: Room, i: Input, now: int)
    requires ChoiceOk(s, i)
    requires Parted(Step(s, i).people) && InOrder(Step(s, i).people, s.startedAt, now)
    ensures forall k :: |s.trace| <= k < |Step(s, i).trace| ==> TrueFinish(Step(s, i).trace[k])
  {
    var r := Step(s, i);
    forall k | |s.trace| <= k < |r.trace| ensures TrueFinish(r.trace[k]) {
      assert Genuine(r.trace[k], r);
      if r.trace[k].FinishCall? {
        ResultUsersDistinct(r.people, r.startedAt, r.trace[k].results);
        TimesFollowRanks(r.people, r.startedAt, now, r.trace[k].results);
      }
    }
  }

  /** Every list ever handed to the database names each user once, with times in the
      order of the ranks, when nobody evicted rejoins and the clock runs forward. */
  lemma {:induction false} EveryFinishTrue(target: int, startedAt: int, ins: seq<Input>)
    requires HonestRun(Opened(target, startedAt), ins) && NoRejoin(target, ins) && Clocked(startedAt, ins)
    ensures var r := Run(Opened(target, startedAt), ins);
      forall k :: 0 <= k < |r.trace| ==> TrueFinish(r.trace[k])
  {
    if |ins| > 0 {
      var s := Run(Opened(target, startedAt), Before(ins));
      EveryFinishTrue(target, startedAt, Before(ins));
      RunPeople(Opened(target, startedAt), Before(ins));
      RunPeople(Opened(target, startedAt), ins);
      Conservation(target, ins);
      FinishesInOrder(target, startedAt, ins);
      StepTrue(s, Last(ins), Now(startedAt, ins));
    }
  }

  // --------------------------------------------------------------- telemetry

  /** Messages of u's telemetry that occur in the run. */
  function Said(ins: seq<Input>, u: UserId): set<Event> {
    if |ins| == 0 then {}
    else Said(Before(ins), u) + (if Speaks(Last(ins).ev, u) then {Last(ins).ev} else {})
  }

  predicate Speaks(ev: Event, u: UserId) {
    ev.Telemetry? && ev.user == u
  }

  /** No sequence number is reused with a different payload. */
  ghost predicate NoReuse(said: set<Event>) {
    forall a, b :: a in said && b in said && a.Telemetry? && b.Telemetry? && a.seqNo == b.seqNo ==> a == b
  }

  predicate LiveThroughout(p: People, target: int, ins: seq<Input>, u: UserId) {
    u in March(p, target, ins).live && (|ins| > 0 ==> LiveThroughout(p, target, Before(ins), u))
  }

  predicate Shows(q: Participant, m: Event) {
    m.Telemetry? && q.lastSeq == m.seqNo && q.wordsCorrect == m.words && q.paceWatt == m.pace
  }

  predicate SameProgress(q: Participant, r: Participant) {
    q.lastSeq == r.lastSeq && q.wordsCorrect == r.wordsCorrect && q.paceWatt == r.paceWatt
  }

  /** q is where telemetry takes someone who started from o: at the message with the
      greatest number, or still at o if no message is newer. */
  ghost predicate UpToDate(o: Participant, said: set<Event>, q: Participant) {
    && q.lastSeq >= o.lastSeq
    && (forall m :: m in said && m.Telemetry? ==> m.seqNo <= q.lastSeq)
    && (SameProgress(q, o) || exists m :: m in said && Shows(q, m) && m.seqNo > o.lastSeq)
  }

  lemma {:induction false} LatestTelemetryWins(p: People, target: int, ins: seq<Input>, u: UserId)
    requires p.active && u in p.live && LiveThroughout(p, target, ins, u)
    ensures March(p, target, ins).active
    ensures UpToDate(p.live[u], Said(ins, u), March(p, target, ins).live[u])
  {
    if |ins| > 0 {
      var s := March(p, target, Before(ins));
      LatestTelemetryWins(p, target, Before(ins), u);
      var ev := Last(ins).ev;
      var said := Said(Before(ins), u);
      var q, r := s.live[u], March(p, target, ins).live[u];
      assert said <= Said(ins, u);
      if Speaks(ev, u) && ev.seqNo > q.lastSeq {
        assert Shows(r, ev) && ev in Said(ins, u);
      } else {
        assert SameProgress(r, q);
        if !SameProgress(q, p.live[u]) {
          var m :| m in said && Shows(q, m) && m.seqNo > p.live[u].lastSeq;
          assert Shows(r, m) && m in Said(ins, u);
        }
      }
    }
  }

  /** Any two deliveries of the same messages, however reordered, repeated and mixed
      with everyone else's events, leave the same progress. */
  lemma TelemetryConverges(p1: People, p2: People, target1: int, target2: int,
                           ins1: seq<Input>, ins2: seq<Input>, u: UserId)
    requires p1.active && u in p1.live && LiveThroughout(p1, target1, ins1, u)
    requires p2.active && u in p2.live && LiveThroughout(p2, target2, ins2, u)
    requires SameProgress(p1.live[u], p2.live[u])
    requires Said(ins1, u) == Said(ins2, u) && NoReuse(Said(ins1, u))
    ensures SameProgress(March(p1, target1, ins1).live[u], March(p2, target2, ins2).live[u])
  {
    LatestTelemetryWins(p1, target1, ins1, u);
    LatestTelemetryWins(p2, target2, ins2, u);
  }

  // -------------------------------------------------------------- departures

  /** u's latest join or disconnect in the run is a disconnect. */
  predicate Lost(ins: seq<Input>, u: UserId) {
    |ins| > 0 &&
    match Last(ins).ev
    case Joined(v, _) => v != u && Lost(Before(ins), u)
    case Disconnected(v) => v == u || Lost(Before(ins), u)
    case _ => Lost(Before(ins), u)
  }

  /** Whether u counts as disconnected after one more event. */
  predicate LostBy(ev: Event, u: UserId, was: bool) {
    match ev
    case Joined(v, _) => v != u && was
    case Disconnected(v) => v == u || was
    case _ => was
  }

  lemma MarkAfter(p: People, target: int, i: Input, u: UserId)
    requires u in p.live && u in Advance(p, target, i).live
    requires p.live[u].graceTimer <==> p.live[u].disconnectedAt.Some?
    ensures var q := Advance(p, target, i).live[u];
      (q.disconnectedAt.Some? <==> LostBy(i.ev, u, p.live[u].disconnectedAt.Some?)) &&
      (q.graceTimer <==> q.disconnectedAt.Some?)
  {
  }

  lemma MarkOfNew(p: People, target: int, i: Input, u: UserId)
    requires u !in p.live && u in Advance(p, target, i).live
    ensures var q := Advance(p, target, i).live[u];
      i.ev.Joined? && i.ev.user == u && q.disconnectedAt.None? && !q.graceTimer
  {
  }

  lemma LostNext(ins: seq<Input>, u: UserId)
    requires |ins| > 0
    ensures Lost(ins, u) <==> LostBy(Last(ins).ev, u, Lost(Before(ins), u))
  {
  }

  /** The actor's own marks agree with the history, and a timer is pending exactly
      for those who are disconnected. */
  lemma {:induction false} MarksAgree(target: int, ins: seq<Input>, u: UserId)
    requires u in March(NOBODY, target, ins).live
    ensures var q := March(NOBODY, target, ins).live[u];
      (q.disconnectedAt.Some? <==> Lost(ins, u)) && (q.graceTimer <==> q.disconnectedAt.Some?)
  {
    if |ins| > 0 {
      var p := March(NOBODY, target, Before(ins));
      LostNext(ins, u);
      if u in p.live {
        MarksAgree(target, Before(ins), u);
        MarkAfter(p, target, Last(ins), u);
      } else {
        MarkOfNew(p, target, Last(ins), u);
      }
    }
  }

  lemma SinceAfter(p: People, target: int, i: Input, u: UserId)
    requires u in Advance(p, target, i).live && Advance(p, target, i).live[u].disconnectedAt.Some?
    ensures var at := Advance(p, target, i).live[u].disconnectedAt;
      if i.ev == Disconnected(u) then at == Some(i.env.now)
      else !(i.ev.Joined? && i.ev.user == u) && u in p.live && at == p.live[u].disconnectedAt
  {
  }

  /** Since event n, u's connection has been lost and neither lost nor made again. */
  predicate LostAt(ins: seq<Input>, u: UserId, n: nat) {
    && n < |ins| && ins[n].ev == Disconnected(u)
    && forall j :: n < j < |ins| ==> ins[j].ev != Disconnected(u) && !(ins[j].ev.Joined? && ins[j].ev.user == u)
  }

  /** And the mark bears the time of that loss. */
  lemma {:induction false} LostSince(target: int, ins: seq<Input>, u: UserId) returns (n: nat)
    requires u in March(NOBODY, target, ins).live && March(NOBODY, target, ins).live[u].disconnectedAt.Some?
    ensures LostAt(ins, u, n) && March(NOBODY, target, ins).live[u].disconnectedAt == Some(ins[n].env.now)
  {
    SinceAfter(March(NOBODY, target, Before(ins)), target, Last(ins), u);
    if Last(ins).ev == Disconnected(u) {
      n := |ins| - 1;
    } else {
      n := LostSince(target, Before(ins), u);
    }
  }

  /** The last event of the run takes u out: a leave, or an eviction notice that finds
      u disconnected. */
  predicate Removes(ins: seq<Input>, u: UserId)
    requires |ins| > 0
  {
    Last(ins).ev == Left(u) || (Last(ins).ev == Evicted(u) && Lost(Before(ins), u))
  }

  /** Someone live goes exactly upon such an event; evicted only grows, and someone
      who withdraws while pending is not evicted by it. */
  lemma GoesOnlyThen(target: int, ins: seq<Input>, u: UserId)
    requires |ins| > 0
    ensures var p, r := March(NOBODY, target, Before(ins)), March(NOBODY, target, ins);
      && (u in p.live ==> (u !in r.live <==> Removes(ins, u)))
      && p.evicted <= r.evicted
      && (u in r.evicted - p.evicted ==> u in p.live && Removes(ins, u) && (p.active || Last(ins).ev.Evicted?))
  {
    var p := March(NOBODY, target, Before(ins));
    if u in p.live {
      MarksAgree(target, Before(ins), u);
    }
  }

  predicate RemovedSince(ins: seq<Input>, n: nat, u: UserId)
    requires n <= |ins|
  {
    |ins| > n && (Removes(ins, u) || RemovedSince(Before(ins), n, u))
  }

  /** Nothing a seat has won is taken back. */
  predicate Keeps(q: Participant, r: Participant) {
    && r.userId == q.userId && r.displayName == q.displayName && r.connectedAt == q.connectedAt
    && r.lastSeq >= q.lastSeq && r.disconnectedCount >= q.disconnectedCount
    && (q.finishRank.Some? ==> r.finishRank == q.finishRank && r.finishedAt == q.finishedAt)
  }

  lemma SeatAfter(p: People, target: int, i: Input, u: UserId)
    requires u in p.live && u in Advance(p, target, i).live
    ensures Keeps(p.live[u], Advance(p, target, i).live[u])
  {
  }

  /** Coming back before departing costs nothing: whoever is not removed keeps seat,
      name and finish, and never loses progress. */
  lemma {:induction false} SeatIsKept(target: int, ins: seq<Input>, n: nat, u: UserId)
    requires n <= |ins| && u in March(NOBODY, target, ins[..n]).live && !RemovedSince(ins, n, u)
    ensures var p, r := March(NOBODY, target, ins[..n]), March(NOBODY, target, ins);
      u in r.live && Keeps(p.live[u], r.live[u])
    decreases |ins|
  {
    if n == |ins| {
      assert ins[..n] == ins;
    } else {
      assert Before(ins)[..n] == ins[..n];
      SeatIsKept(target, Before(ins), n, u);
      GoesOnlyThen(target, ins, u);
      SeatAfter(March(NOBODY, target, Before(ins)), target, Last(ins), u);
    }
  }

  /** Events that say that u's connection came or went, or that a grace period ended. */
  predicate Connects(ev: Event, u: UserId) {
    (ev.Joined? || ev.Disconnected? || ev.Evicted?) && ev.user == u
  }

  /** The run as it would have been had u's connection never broken. */
  function Unbroken(ins: seq<Input>, u: UserId): seq<Input> {
    if |ins| == 0 then []
    else if Connects(Last(ins).ev, u) then Unbroken(Before(ins), u)
    else Unbroken(Before(ins), u) + [Last(ins)]
  }

  /** Everything is the same but u's disconnection marks and their count. */
  predicate SameBut(p: People, q: People, u: UserId) {
    && u in p.live && u in q.live
    && q == p.(live := p.live[u := q.live[u]])
    && q.live[u] == p.live[u].(disconnectedAt := q.live[u].disconnectedAt,
                               disconnectedCount := q.live[u].disconnectedCount,
                               graceTimer := q.live[u].graceTimer)
  }

  lemma BrokenStep(p: People, q: People, target: int, i: Input, u: UserId)
    requires SameBut(p, q, u) && u in Advance(p, target, i).live && Connects(i.ev, u)
    ensures SameBut(Advance(p, target, i), q, u)
  {
  }

  lemma OtherGoes(p: People, q: People, target: int, i: Input, u: UserId)
    requires SameBut(p, q, u) && (i.ev.Evicted? || i.ev.Left?) && i.ev.user != u
    ensures SameBut(Advance(p, target, i), Advance(q, target, i), u)
  {
    var v := i.ev.user;
    if v in p.live {
      PutsCommute(p.live, u, q.live[u], v, p.live[v]);
    }
  }

  lemma OtherSits(p: People, q: People, target: int, i: Input, u: UserId)
    requires SameBut(p, q, u) && (i.ev.Joined? || i.ev.Disconnected?) && i.ev.user != u
    ensures SameBut(Advance(p, target, i), Advance(q, target, i), u)
  {
    var v, r := i.ev.user, Advance(p, target, i);
    if v in r.live {
      PutsCommute(p.live, u, q.live[u], v, r.live[v]);
    }
  }

  lemma OtherTypes(p: People, q: People, target: int, i: Input, u: UserId)
    requires SameBut(p, q, u) && i.ev.Telemetry? && i.ev.user != u
    ensures SameBut(Advance(p, target, i), Advance(q, target, i), u)
  {
    var v, r := i.ev.user, Advance(p, target, i);
    if v in r.live {
      PutsCommute(p.live, u, q.live[u], v, r.live[v]);
    }
  }

  lemma SelfTypes(p: People, q: People, target: int, i: Input, u: UserId)
    requires SameBut(p, q, u) && i.ev.Telemetry? && i.ev.user == u
    ensures SameBut(Advance(p, target, i), Advance(q, target, i), u)
  {
    var x, y := Advance(p, target, i).live[u], Advance(q, target, i).live[u];
    PutTwice(p.live, u, x, y);
    PutTwice(p.live, u, q.live[u], y);
  }

  lemma OtherStep(p: People, q: People, target: int, i: Input, u: UserId)
    requires SameBut(p, q, u) && u in Advance(p, target, i).live && !Connects(i.ev, u)
    ensures SameBut(Advance(p, target, i), Advance(q, target, i), u)
  {
    match i.ev
    case Telemetry(v, _, _, _) => if v == u { SelfTypes(p, q, target, i, u); } else { OtherTypes(p, q, target, i, u); }
    case Joined(_, _) => OtherSits(p, q, target, i, u);
    case Disconnected(_) => OtherSits(p, q, target, i, u);
    case Evicted(_) => OtherGoes(p, q, target, i, u);
    case Left(_) => OtherGoes(p, q, target, i, u);
    case _ =>
  }

  /** For someone who is never removed, lost connections leave no trace: without them
      the run ends the same for everyone, but for that user's own marks. */
  lemma {:induction false} BrokenConnectionsLeaveNoTrace(p: People, target: int, ins: seq<Input>, u: UserId)
    requires LiveThroughout(p, target, ins, u)
    ensures SameBut(March(p, target, ins), March(p, target, Unbroken(ins, u)), u)
  {
    if |ins| > 0 {
      var r, q := March(p, target, Before(ins)), March(p, target, Unbroken(Before(ins), u));
      BrokenConnectionsLeaveNoTrace(p, target, Before(ins), u);
      if Connects(Last(ins).ev, u) {
        BrokenStep(r, q, target, Last(ins), u);
      } else {
        OtherStep(r, q, target, Last(ins), u);
        assert Before(Unbroken(ins, u)) == Unbroken(Before(ins), u);
      }
    }
  }
}
