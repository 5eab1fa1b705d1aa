/** What a race's results say of each player, told from the events of the run alone. */
module RoomResults {
  import opened Options
  import opened RoomEffects
  import opened RoomHistory
  import opened RoomModel
  import opened RoomRanks
  import opened Shared

  /** The participants after the first n events. */
  function PeopleAt(target: int, ins: seq<Input>, n: nat): People
    requires n <= |ins|
  {
    March(NOBODY, target, ins[..n])
  }

  lemma PeopleNext(target: int, ins: seq<Input>, n: nat)
    requires n < |ins|
    ensures PeopleAt(target, ins, n + 1) == Advance(PeopleAt(target, ins, n), target, ins[n])
  {
    assert ins[..n + 1][..n] == ins[..n];
  }

  // ------------------------------------------------------------------- seats

  /** Event m gives u a seat. */
  predicate SitsDown(target: int, ins: seq<Input>, m: nat, u: UserId) {
    m < |ins| && ins[m].ev.Joined? && ins[m].ev.user == u && u !in PeopleAt(target, ins, m).live
  }

  /** u has kept the seat taken in event m up to event d. */
  ghost predicate Sits(target: int, ins: seq<Input>, m: nat, d: nat, u: UserId) {
    && m < d <= |ins| && SitsDown(target, ins, m, u)
    && forall n :: m < n <= d ==> u in PeopleAt(target, ins, n).live
  }

  lemma NobodyAtFirst(target: int, ins: seq<Input>, n: nat, u: UserId)
    requires n <= |ins| && u in PeopleAt(target, ins, n).live
    ensures n > 0
  {
  }

  /** Everyone who is there sits on some seat. */
  lemma {:induction false} SeatOf(target: int, ins: seq<Input>, d: nat, u: UserId) returns (m: nat)
    requires 0 < d <= |ins| && u in PeopleAt(target, ins, d).live
    ensures Sits(target, ins, m, d, u)
  {
    PeopleNext(target, ins, d - 1);
    if u in PeopleAt(target, ins, d - 1).live {
      NobodyAtFirst(target, ins, d - 1, u);
      m := SeatOf(target, ins, d - 1, u);
    } else {
      m := d - 1;
    }
  }

  /** And on one only. */
  lemma OneSeat(target: int, ins: seq<Input>, m: nat, n: nat, d: nat, u: UserId)
    requires Sits(target, ins, m, d, u) && Sits(target, ins, n, d, u)
    ensures m == n
  {
    assert u !in PeopleAt(target, ins, m).live && u !in PeopleAt(target, ins, n).live;
  }

  // ------------------------------------------------------- what happened on a seat

  /** Disconnections of u after event m and before event d. */
  function Drops(ins: seq<Input>, m: nat, d: nat, u: UserId): nat
    requires m < d <= |ins|
  {
    if d == m + 1 then 0 else Drops(ins, m, d - 1, u) + if ins[d - 1].ev == Disconnected(u) then 1 else 0
  }

  /** Event j is telemetry of u, after event m and after the start, with a number. */
  predicate Counts(ins: seq<Input>, m: nat, u: UserId, j: nat) {
    m < j < |ins| && Speaks(ins[j].ev, u) && ins[j].ev.seqNo > 0 && HasStart(ins[..j])
  }

  predicate NoneCounts(ins: seq<Input>, m: nat, d: nat, u: UserId) {
    forall j :: m < j < d ==> !Counts(ins, m, u, j)
  }

  /** Of those before d, j has the greatest number, and came first with it. */
  ghost predicate Latest(ins: seq<Input>, m: nat, d: nat, u: UserId, j: nat) {
    && j < d && Counts(ins, m, u, j)
    && forall i :: 0 <= i < d && Counts(ins, m, u, i) ==>
         ins[i].ev.seqNo < ins[j].ev.seqNo || (ins[i].ev.seqNo == ins[j].ev.seqNo && j <= i)
  }

  /** j's number is greater than all before it, and its words reach the target. */
  ghost predicate Reaches(target: int, ins: seq<Input>, m: nat, u: UserId, j: nat) {
    && Counts(ins, m, u, j) && ins[j].ev.words >= target
    && forall i :: 0 <= i < j && Counts(ins, m, u, i) ==> ins[i].ev.seqNo < ins[j].ev.seqNo
  }

  ghost predicate NoneReaches(target: int, ins: seq<Input>, m: nat, d: nat, u: UserId) {
    forall j: nat :: j < d ==> !Reaches(target, ins, m, u, j)
  }

  /** u crosses the line in event j. */
  ghost predicate CrossesAt(target: int, ins: seq<Input>, m: nat, u: UserId, j: nat) {
    Reaches(target, ins, m, u, j) && NoneReaches(target, ins, m, j, u)
  }

  // --------------------------------------------------------------- progress

  ghost predicate ProgressTrue(ins: seq<Input>, m: nat, d: nat, u: UserId, q: Participant) {
    && q.lastSeq >= 0
    && (forall j: nat :: j < d && Counts(ins, m, u, j) ==> ins[j].ev.seqNo <= q.lastSeq)
    && (if NoneCounts(ins, m, d, u) then q.lastSeq == 0 && q.wordsCorrect == 0 && q.paceWatt == 0.0
        else exists j: nat :: Latest(ins, m, d, u, j) && Shows(q, ins[j].ev))
  }

  lemma ProgressStays(ins: seq<Input>, m: nat, d: nat, u: UserId, q: Participant, r: Participant)
    requires m < d < |ins| && ProgressTrue(ins, m, d, u, q) && SameProgress(q, r)
    requires Counts(ins, m, u, d) ==> ins[d].ev.seqNo <= q.lastSeq
    ensures ProgressTrue(ins, m, d + 1, u, r)
  {
    if NoneCounts(ins, m, d, u) {
      assert NoneCounts(ins, m, d + 1, u);
    } else {
      var j: nat :| Latest(ins, m, d, u, j) && Shows(q, ins[j].ev);
      assert Latest(ins, m, d + 1, u, j) && Shows(r, ins[j].ev);
    }
  }

  lemma ProgressMoves(ins: seq<Input>, m: nat, d: nat, u: UserId, q: Participant, r: Participant)
    requires m < d < |ins| && ProgressTrue(ins, m, d, u, q)
    requires Counts(ins, m, u, d) && ins[d].ev.seqNo > q.lastSeq && Shows(r, ins[d].ev)
    ensures ProgressTrue(ins, m, d + 1, u, r)
  {
    assert Latest(ins, m, d + 1, u, d);
  }

  lemma ProgressStep(target: int, ins: seq<Input>, m: nat, d: nat, u: UserId)
    requires Sits(target, ins, m, d, u) && d < |ins| && u in PeopleAt(target, ins, d + 1).live
    requires ProgressTrue(ins, m, d, u, PeopleAt(target, ins, d).live[u])
    ensures ProgressTrue(ins, m, d + 1, u, PeopleAt(target, ins, d + 1).live[u])
  {
    var p := PeopleAt(target, ins, d);
    PeopleNext(target, ins, d);
    ActiveIff(target, ins[..d]);
    SeatProgress(p, target, ins[d], u);
    var q, r := p.live[u], PeopleAt(target, ins, d + 1).live[u];
    if Speaks(ins[d].ev, u) && p.active && ins[d].ev.seqNo > q.lastSeq {
      ProgressMoves(ins, m, d, u, q, r);
    } else {
      ProgressStays(ins, m, d, u, q, r);
    }
  }

  lemma SeatProgress(p: People, target: int, i: Input, u: UserId)
    requires u in p.live && u in Advance(p, target, i).live
    ensures var q, r := p.live[u], Advance(p, target, i).live[u];
      if Speaks(i.ev, u) && p.active && i.ev.seqNo > q.lastSeq then Shows(r, i.ev) else SameProgress(q, r)
  {
  }

  // ------------------------------------------------------------- the seat as a whole

  /** The telemetry event j would give out a rank. */
  ghost predicate GivesRank(target: int, ins: seq<Input>, j: nat) {
    j < |ins| && ins[j].ev.Telemetry? && RanksAt(target, ins, ins[j].ev.user, j)
  }

  ghost predicate RanksAt(target: int, ins: seq<Input>, u: UserId, j: nat) {
    exists m: nat :: Sits(target, ins, m, j, u) && CrossesAt(target, ins, m, u, j)
  }

  /** Ranks given out before event n, and seats taken. */
  ghost function RanksGiven(target: int, ins: seq<Input>, n: nat): nat
    requires n <= |ins|
  {
    if n == 0 then 0 else RanksGiven(target, ins, n - 1) + if GivesRank(target, ins, n - 1) then 1 else 0
  }

  function SeatsTaken(target: int, ins: seq<Input>, n: nat): nat
    requires n <= |ins|
  {
    if n == 0 then 0
    else
      var ev := ins[n - 1].ev;
      SeatsTaken(target, ins, n - 1) + if ev.Joined? && SitsDown(target, ins, n - 1, ev.user) then 1 else 0
  }

  ghost predicate FinishTrue(target: int, ins: seq<Input>, m: nat, d: nat, u: UserId, q: Participant)
    requires d <= |ins|
  {
    if NoneReaches(target, ins, m, d, u) then q.finishRank == None && q.finishedAt == None
    else exists j: nat ::
      && j < d && CrossesAt(target, ins, m, u, j)
      && q.finishRank == Some(RanksGiven(target, ins, j + 1)) && q.finishedAt == Some(ins[j].env.now)
  }

  ghost predicate SeatTrue(target: int, ins: seq<Input>, m: nat, d: nat, u: UserId)
    requires Sits(target, ins, m, d, u)
  {
    var q := PeopleAt(target, ins, d).live[u];
    && q.userId == u && q.displayName == ins[m].ev.name && q.connectedAt == ins[m].env.now
    && q.disconnectedCount == Drops(ins, m, d, u)
    && ProgressTrue(ins, m, d, u, q)
    && FinishTrue(target, ins, m, d, u, q)
  }

  /** Whether a sitting user is ranked by this event, from either side. */
  lemma CrossIff(target: int, ins: seq<Input>, m: nat, d: nat, u: UserId)
    requires Sits(target, ins, m, d, u) && d < |ins| && SeatTrue(target, ins, m, d, u)
    ensures CrossesNow(PeopleAt(target, ins, d), target, ins[d].ev, u) <==> CrossesAt(target, ins, m, u, d)
    ensures CrossesAt(target, ins, m, u, d) <==>
            ins[d].ev.Telemetry? && ins[d].ev.user == u && GivesRank(target, ins, d)
  {
    var p := PeopleAt(target, ins, d);
    var q := p.live[u];
    ActiveIff(target, ins[..d]);
    LeadsIff(ins, m, d, u, q);
    if RanksAt(target, ins, u, d) {
      var n: nat :| Sits(target, ins, n, d, u) && CrossesAt(target, ins, n, u, d);
      OneSeat(target, ins, m, n, d, u);
    }
  }

  lemma LeadsIff(ins: seq<Input>, m: nat, d: nat, u: UserId, q: Participant)
    requires m < d < |ins| && ProgressTrue(ins, m, d, u, q)
    ensures Counts(ins, m, u, d) ==>
      (ins[d].ev.seqNo > q.lastSeq <==>
       forall i :: 0 <= i < d && Counts(ins, m, u, i) ==> ins[i].ev.seqNo < ins[d].ev.seqNo)
  {
    if !NoneCounts(ins, m, d, u) {
      var j: nat :| Latest(ins, m, d, u, j) && Shows(q, ins[j].ev);
      assert Counts(ins, m, u, j);
    } else {
      assert forall i :: 0 <= i < d ==> !Counts(ins, m, u, i);
    }
  }

  lemma SeatFirst(target: int, ins: seq<Input>, m: nat, u: UserId)
    requires SitsDown(target, ins, m, u)
    ensures Sits(target, ins, m, m + 1, u) && SeatTrue(target, ins, m, m + 1, u)
  {
    PeopleNext(target, ins, m);
    var q := PeopleAt(target, ins, m + 1).live[u];
    assert q == Newcomer(u, ins[m].ev.name, ins[m].env.now);
    assert NoneCounts(ins, m, m + 1, u);
    assert NoneReaches(target, ins, m, m + 1, u);
  }

  lemma FinishStays(target: int, ins: seq<Input>, m: nat, d: nat, u: UserId, q: Participant, r: Participant)
    requires m < d < |ins| && FinishTrue(target, ins, m, d, u, q) && !CrossesAt(target, ins, m, u, d)
    requires r.finishRank == q.finishRank && r.finishedAt == q.finishedAt
    ensures FinishTrue(target, ins, m, d + 1, u, r)
  {
    if NoneReaches(target, ins, m, d, u) {
      assert !Reaches(target, ins, m, u, d);
      assert NoneReaches(target, ins, m, d + 1, u);
    } else {
      var j: nat :|
        && j < d && CrossesAt(target, ins, m, u, j)
        && q.finishRank == Some(RanksGiven(target, ins, j + 1)) && q.finishedAt == Some(ins[j].env.now);
      assert Reaches(target, ins, m, u, j);
    }
  }

  lemma FinishCrosses(target: int, ins: seq<Input>, m: nat, d: nat, u: UserId, r: Participant)
    requires m < d < |ins| && CrossesAt(target, ins, m, u, d)
    requires r.finishRank == Some(RanksGiven(target, ins, d + 1)) && r.finishedAt == Some(ins[d].env.now)
    ensures FinishTrue(target, ins, m, d + 1, u, r)
  {
    assert Reaches(target, ins, m, u, d);
  }

  lemma FinishStepOf(p: People, target: int, i: Input, u: UserId)
    requires u in p.live && u in Advance(p, target, i).live
    ensures var q, r := p.live[u], Advance(p, target, i).live[u];
      if CrossesNow(p, target, i.ev, u) then
        r.finishRank == Some(p.finishedCount + 1) && r.finishedAt == Some(i.env.now)
      else r.finishRank == q.finishRank && r.finishedAt == q.finishedAt
    ensures var q, r := p.live[u], Advance(p, target, i).live[u];
      && r.userId == q.userId && r.displayName == q.displayName && r.connectedAt == q.connectedAt
      && r.disconnectedCount == q.disconnectedCount + (if i.ev == Disconnected(u) then 1 else 0)
  {
  }

  lemma FinishStep(target: int, ins: seq<Input>, m: nat, d: nat, u: UserId)
    requires Sits(target, ins, m, d, u) && d < |ins| && u in PeopleAt(target, ins, d + 1).live
    requires SeatTrue(target, ins, m, d, u)
    requires PeopleAt(target, ins, d).finishedCount == RanksGiven(target, ins, d)
    ensures FinishTrue(target, ins, m, d + 1, u, PeopleAt(target, ins, d + 1).live[u])
  {
    var p := PeopleAt(target, ins, d);
    PeopleNext(target, ins, d);
    CrossIff(target, ins, m, d, u);
    FinishStepOf(p, target, ins[d], u);
    var q, r := p.live[u], PeopleAt(target, ins, d + 1).live[u];
    if CrossesAt(target, ins, m, u, d) {
      FinishCrosses(target, ins, m, d, u, r);
    } else {
      FinishStays(target, ins, m, d, u, q, r);
    }
  }

  lemma SitsOn(target: int, ins: seq<Input>, m: nat, d: nat, u: UserId)
    requires Sits(target, ins, m, d, u) && d < |ins| && u in PeopleAt(target, ins, d + 1).live
    ensures Sits(target, ins, m, d + 1, u)
  {
  }

  lemma SeatStep(target: int, ins: seq<Input>, m: nat, d: nat, u: UserId)
    requires Sits(target, ins, m, d, u) && d < |ins| && u in PeopleAt(target, ins, d + 1).live
    requires SeatTrue(target, ins, m, d, u)
    requires PeopleAt(target, ins, d).finishedCount == RanksGiven(target, ins, d)
    ensures Sits(target, ins, m, d + 1, u) && SeatTrue(target, ins, m, d + 1, u)
  {
    SitsOn(target, ins, m, d, u);
    PeopleNext(target, ins, d);
    FinishStepOf(PeopleAt(target, ins, d), target, ins[d], u);
    ProgressStep(target, ins, m, d, u);
    FinishStep(target, ins, m, d, u);
  }

  // ---------------------------------------------------------- over the whole run

  /** Everything that holds after the first d events. */
  ghost predicate AllTrue(target: int, ins: seq<Input>, d: nat)
    requires d <= |ins|
  {
    && PeopleAt(target, ins, d).finishedCount == RanksGiven(target, ins, d)
    && PeopleAt(target, ins, d).total == SeatsTaken(target, ins, d)
    && forall m, u :: Sits(target, ins, m, d, u) ==> SeatTrue(target, ins, m, d, u)
  }

  lemma SitsBefore(target: int, ins: seq<Input>, m: nat, d: nat, u: UserId)
    requires Sits(target, ins, m, d + 1, u)
    ensures m == d || Sits(target, ins, m, d, u)
  {
  }

  lemma SeatsNext(target: int, ins: seq<Input>, d: nat, m: nat, u: UserId)
    requires d < |ins| && AllTrue(target, ins, d) && Sits(target, ins, m, d + 1, u)
    ensures SeatTrue(target, ins, m, d + 1, u)
  {
    SitsBefore(target, ins, m, d, u);
    if m == d {
      SeatFirst(target, ins, m, u);
    } else {
      SeatStep(target, ins, m, d, u);
    }
  }

  lemma CountsNext(target: int, ins: seq<Input>, d: nat)
    requires d < |ins| && AllTrue(target, ins, d)
    ensures PeopleAt(target, ins, d + 1).finishedCount == RanksGiven(target, ins, d + 1)
    ensures PeopleAt(target, ins, d + 1).total == SeatsTaken(target, ins, d + 1)
  {
    var p, ev := PeopleAt(target, ins, d), ins[d].ev;
    PeopleNext(target, ins, d);
    if ev.Telemetry? {
      if ev.user in p.live {
        NobodyAtFirst(target, ins, d, ev.user);
        var m := SeatOf(target, ins, d, ev.user);
        CrossIff(target, ins, m, d, ev.user);
      } else {
        NoRank(target, ins, d);
      }
    }
  }

  lemma NoRank(target: int, ins: seq<Input>, d: nat)
    requires d < |ins| && ins[d].ev.Telemetry? && ins[d].ev.user !in PeopleAt(target, ins, d).live
    ensures !GivesRank(target, ins, d)
  {
  }

  lemma {:induction false} RunIsTrue(target: int, ins: seq<Input>, d: nat)
    requires d <= |ins|
    ensures AllTrue(target, ins, d)
  {
    if d > 0 {
      RunIsTrue(target, ins, d - 1);
      CountsNext(target, ins, d - 1);
      forall m: nat, u | Sits(target, ins, m, d, u) ensures SeatTrue(target, ins, m, d, u) {
        SeatsNext(target, ins, d - 1, m, u);
      }
    }
  }

  // ------------------------------------------------------------- those who have gone

  /** u's last departure in the first d events is event e. */
  ghost predicate GoneLast(target: int, ins: seq<Input>, d: nat, u: UserId, e: nat)
    requires d <= |ins|
  {
    && e < d && GoesAt(target, ins[..d], e, u)
    && forall n: nat :: e < n < d ==> !GoesAt(target, ins[..d], n, u)
  }

  lemma GoesWithin(target: int, ins: seq<Input>, d: nat, n: nat, u: UserId)
    requires n < d < |ins|
    ensures GoesAt(target, ins[..d + 1], n, u) <==> GoesAt(target, ins[..d], n, u)
  {
    assert ins[..d + 1][..d] == ins[..d];
    GoesBefore(target, ins[..d + 1], n, u);
  }

  lemma DepartedStep(p: People, target: int, i: Input, u: UserId)
    ensures var q := Advance(p, target, i);
      var goes := u in p.live && u !in q.live && (p.active || i.ev == Evicted(u));
      (u in q.departed <==> u in p.departed || goes) &&
      (u in q.departed ==> q.departed[u] == if goes then p.live[u] else p.departed[u])
  {
  }

  lemma NobodyGoneAtFirst(target: int, ins: seq<Input>, n: nat, u: UserId)
    requires n <= |ins| && u in PeopleAt(target, ins, n).departed
    ensures n > 0
  {
  }

  /** The record kept of someone departed is the one they had when they last went. */
  lemma {:induction false} DepartedAsGone(target: int, ins: seq<Input>, d: nat, u: UserId) returns (e: nat)
    requires 0 < d <= |ins| && u in PeopleAt(target, ins, d).departed
    ensures GoneLast(target, ins, d, u, e)
    ensures u in PeopleAt(target, ins, e).live
    ensures PeopleAt(target, ins, d).departed[u] == PeopleAt(target, ins, e).live[u]
  {
    var n := d - 1;
    var p := PeopleAt(target, ins, n);
    PeopleNext(target, ins, n);
    DepartedStep(p, target, ins[n], u);
    ActiveIff(target, ins[..n]);
    assert ins[..d][..n] == ins[..n] && ins[..d][..n + 1] == ins[..d];
    if GoesAt(target, ins[..d], n, u) {
      e := n;
    } else {
      NobodyGoneAtFirst(target, ins, n, u);
      e := DepartedAsGone(target, ins, n, u);
      forall k: nat | k < n ensures GoesAt(target, ins[..d], k, u) <==> GoesAt(target, ins[..n], k, u) {
        GoesWithin(target, ins, n, k, u);
      }
    }
  }

  // -------------------------------------------------------------------- the results

  /** Whole milliseconds of a duration in nanoseconds, cut off toward zero. */
  predicate InMillis(ms: int, ns: int) {
    if ns >= 0 then 1000000 * ms <= ns < 1000000 * (ms + 1) else 1000000 * (ms - 1) < ns <= 1000000 * ms
  }

  lemma MillisMeans(ns: int)
    ensures InMillis(Millis(ns), ns)
  {
  }

  /** The pace is that of u's latest telemetry on the seat, or zero. */
  ghost predicate PaceTrue(ins: seq<Input>, m: nat, d: nat, u: UserId, pace: real) {
    if NoneCounts(ins, m, d, u) then pace == 0.0
    else exists j: nat :: Latest(ins, m, d, u, j) && ins[j].ev.Telemetry? && pace == ins[j].ev.pace
  }

  /** Rank and time are those of the crossing on the seat; without one, the rank is the
      number of seats taken so far, and there is no time. */
  ghost predicate PlaceTrue(target: int, startedAt: int, ins: seq<Input>, m: nat, d: nat, n: nat,
                            r: ParticipantResult)
    requires d <= n <= |ins|
  {
    if NoneReaches(target, ins, m, d, r.userId) then
      r.finishRank == Some(SeatsTaken(target, ins, n)) && r.finishTimeMs == None
    else exists j: nat ::
      && j < d && CrossesAt(target, ins, m, r.userId, j)
      && r.finishRank == Some(RanksGiven(target, ins, j + 1))
      && r.finishTimeMs.Some? && InMillis(r.finishTimeMs.value, ins[j].env.now - startedAt)
  }

  /** After n events this result tells the truth of a seat, taken in event m, that its
      user still has, or had at their last departure, event d. */
  ghost predicate ResultTrue(target: int, startedAt: int, ins: seq<Input>, n: nat, r: ParticipantResult,
                             m: nat, d: nat)
    requires n <= |ins|
  {
    && d <= n && Sits(target, ins, m, d, r.userId)
    && (d == n || GoneLast(target, ins, n, r.userId, d))
    && r.disconnectedCount == Drops(ins, m, d, r.userId)
    && PaceTrue(ins, m, d, r.userId, r.avgPaceWatt)
    && PlaceTrue(target, startedAt, ins, m, d, n, r)
  }

  lemma SeatResult(target: int, startedAt: int, ins: seq<Input>, n: nat, m: nat, d: nat, u: UserId)
    requires d <= n <= |ins| && Sits(target, ins, m, d, u) && SeatTrue(target, ins, m, d, u)
    requires d == n || GoneLast(target, ins, n, u, d)
    ensures var q := PeopleAt(target, ins, d).live[u];
      ResultTrue(target, startedAt, ins, n, BuildResult(q, SeatsTaken(target, ins, n), startedAt), m, d)
  {
    var q := PeopleAt(target, ins, d).live[u];
    var r := BuildResult(q, SeatsTaken(target, ins, n), startedAt);
    SeatPace(ins, m, d, u, q);
    SeatPlace(target, startedAt, ins, m, d, n, q, r);
  }

  lemma SeatPace(ins: seq<Input>, m: nat, d: nat, u: UserId, q: Participant)
    requires ProgressTrue(ins, m, d, u, q)
    ensures PaceTrue(ins, m, d, u, q.paceWatt)
  {
    if !NoneCounts(ins, m, d, u) {
      var j: nat :| Latest(ins, m, d, u, j) && Shows(q, ins[j].ev);
      assert ins[j].ev.Telemetry? && q.paceWatt == ins[j].ev.pace;
    }
  }

  lemma SeatPlace(target: int, startedAt: int, ins: seq<Input>, m: nat, d: nat, n: nat, q: Participant,
                  r: ParticipantResult)
    requires d <= n <= |ins| && FinishTrue(target, ins, m, d, q.userId, q)
    requires r == BuildResult(q, SeatsTaken(target, ins, n), startedAt)
    ensures PlaceTrue(target, startedAt, ins, m, d, n, r)
  {
    if q.finishedAt.Some? {
      MillisMeans(q.finishedAt.value - startedAt);
    }
  }

  /** Any record's result, wherever it is kept. */
  lemma SlotResult(target: int, startedAt: int, ins: seq<Input>, n: nat, k: Slot) returns (m: nat, d: nat)
    requires 0 < n <= |ins| && Held(PeopleAt(target, ins, n), k)
    ensures var p := PeopleAt(target, ins, n);
      ResultTrue(target, startedAt, ins, n, BuildResult(At(p, k), p.total, startedAt), m, d)
  {
    RunIsTrue(target, ins, n);
    match k
    case Live(u) =>
      d := n;
      m := SeatOf(target, ins, n, u);
      SeatResult(target, startedAt, ins, n, m, d, u);
    case Departed(u) =>
      d := DepartedAsGone(target, ins, n, u);
      NobodyAtFirst(target, ins, d, u);
      m := SeatOf(target, ins, d, u);
      RunIsTrue(target, ins, d);
      SeatResult(target, startedAt, ins, n, m, d, u);
  }

  ghost predicate SomeSeatTrue(target: int, startedAt: int, ins: seq<Input>, n: nat, r: ParticipantResult)
    requires n <= |ins|
  {
    exists m: nat, d: nat :: ResultTrue(target, startedAt, ins, n, r, m, d)
  }

  lemma ListingTrue(target: int, startedAt: int, ins: seq<Input>, n: nat, rs: seq<ParticipantResult>, j: nat)
    requires 0 < n <= |ins| && ListingOf(rs, PeopleAt(target, ins, n), startedAt) && j < |rs|
    ensures SomeSeatTrue(target, startedAt, ins, n, rs[j])
  {
    var p := PeopleAt(target, ins, n);
    var c: nat :| ListsUpTo(c, rs, p, startedAt);
    ResultSlots(p, startedAt, rs, c);
    var m, d := SlotResult(target, startedAt, ins, n, SlotOf(rs, c, j));
  }

  /** In every run, and for every list handed to the database in it: each result tells
      its user's pace, disconnections, rank and time as the events of the run had them
      on a seat of that user's. */
  lemma EveryResultTrue(target: int, startedAt: int, ins: seq<Input>, k: nat) returns (n: nat)
    requires HonestRun(Opened(target, startedAt), ins)
    requires k < |Run(Opened(target, startedAt), ins).trace| && Run(Opened(target, startedAt), ins).trace[k].FinishCall?
    ensures n < |ins| && OfTurn(Opened(target, startedAt), ins, n, k)
    ensures var rs := Run(Opened(target, startedAt), ins).trace[k].results;
      forall j :: 0 <= j < |rs| ==> SomeSeatTrue(target, startedAt, ins, n + 1, rs[j])
  {
    var s := Opened(target, startedAt);
    var e := Run(s, ins).trace[k];
    n := TurnOf(s, ins, k);
    TurnIsHonest(s, ins, n);
    RunNext(s, ins, n);
    TraceGrows(s, ins, n + 1);
    RunPeople(s, ins[..n + 1]);
    var r := Run(s, ins[..n + 1]);
    assert r.trace[k] == e && Genuine(r.trace[k], r);
    forall j | 0 <= j < |e.results| ensures SomeSeatTrue(target, startedAt, ins, n + 1, e.results[j]) {
      ListingTrue(target, startedAt, ins, n + 1, e.results, j);
    }
  }

  lemma {:induction false} TurnIsHonest(s: Room, ins: seq<Input>, n: nat)
    requires n < |ins| && HonestRun(s, ins)
    ensures ChoiceOk(Run(s, ins[..n]), ins[n])
  {
    if n < |ins| - 1 {
      TurnIsHonest(s, ins[..|ins| - 1], n);
      assert ins[..|ins| - 1][..n] == ins[..n];
    }
  }
}
