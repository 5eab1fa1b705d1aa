/** Joining and leaving a race over HTTP: every call is a sequence of separate
    database calls, and other calls may run between any two of them. */
module Capacity {
  import opened Collections
  import opened Options
  import opened Shared

  const MAX_PARTICIPANTS := 10

  datatype Answer = Token | NotFound | NotPending | Full | AlreadyJoined | NotParticipant | Broken

  /** Where a join stands: the database call it makes next, with what it has read. */
  datatype Stage = Looking | Checking(seen: Status) | Counting | Adding | Ended(answer: Answer)

  datatype Join = Join(user: UserId, stage: Stage)

  datatype LeaveStage = LeaveLooking | Removing | LeaveEnded(answer: Answer)

  datatype Leave = Leave(user: UserId, stage: LeaveStage)

  /** One race as its rows hold it. */
  datatype Race = Race(status: Option<Status>, rows: set<UserId>)

  // ------------------------------------------------------- one database call

  /** The next database call of a join. `ok` is false when that call fails;
      `signs` is false when signing the token afterwards does. */
  function JoinCall(race: Race, j: Join, ok: bool, signs: bool): (Race, Stage) {
    var token := Ended(if signs then Token else Broken);
    match j.stage
    case Ended(_) => (race, j.stage)
    case Looking =>
      (race, if !ok then Ended(Broken) else if race.status.None? then Ended(NotFound) else Checking(race.status.value))
    case Checking(seen) =>
      (race, if !ok then Ended(Broken) else if j.user in race.rows then token
             else if !seen.Pending? then Ended(NotPending) else Counting)
    case Counting =>
      (race, if !ok then Ended(Broken) else if |race.rows| >= MAX_PARTICIPANTS then Ended(Full) else Adding)
    case Adding =>
      if !ok then (race, Ended(Broken))
      else if j.user in race.rows then (race, Ended(AlreadyJoined))
      else (race.(rows := race.rows + {j.user}), token)
  }

  function LeaveCall(race: Race, l: Leave, ok: bool): (Race, LeaveStage) {
    match l.stage
    case LeaveEnded(_) => (race, l.stage)
    case LeaveLooking =>
      (race, if !ok then LeaveEnded(Broken) else if race.status.None? then LeaveEnded(NotFound)
             else if !race.status.value.Pending? then LeaveEnded(NotPending) else Removing)
    case Removing =>
      if !ok then (race, LeaveEnded(Broken))
      else if l.user !in race.rows then (race, LeaveEnded(NotParticipant))
      else (race.(rows := race.rows - {l.user}), LeaveEnded(Token))
  }

  // -------------------------------------------------------------- the service

  /** The answers the database gives to one call's four requests. */
  datatype Luck = Luck(looks: bool, checks: bool, counts: bool, adds: bool, signs: bool)

  function Advanced(s: (Race, Stage), user: UserId, ok: bool, signs: bool): (Race, Stage) {
    JoinCall(s.0, Join(user, s.1), ok, signs)
  }

  /** A join with nothing in between. */
  function JoinedAlone(race: Race, user: UserId, luck: Luck): (Race, Stage) {
    Advanced(Advanced(Advanced(Advanced((race, Looking), user, luck.looks, luck.signs),
                               user, luck.checks, luck.signs),
                      user, luck.counts, luck.signs),
             user, luck.adds, luck.signs)
  }

  /** A leave alone: its look at the race, then its removal. */
  function LeftAlone(race: Race, user: UserId, looks: bool, removes: bool): (Race, LeaveStage) {
    var (after, stage) := LeaveCall(race, Leave(user, LeaveLooking), looks);
    LeaveCall(after, Leave(user, stage), removes)
  }

  class RaceService {
    var status: Option<Status>
    var rows: set<UserId>

    function Value(): Race
      reads this
    {
      Race(status, rows)
    }

    method AddParticipant(user: UserId, ok: bool) returns (answer: Answer)
      modifies this`rows
      ensures rows == if ok then old(rows) + {user} else old(rows)
      ensures answer == if !ok then Broken else if user in old(rows) then AlreadyJoined else Token
    {
      if !ok {
        return Broken;
      }
      if user in rows {
        return AlreadyJoined;
      }
      rows := rows + {user};
      return Token;
    }

    method JoinRace(user: UserId, luck: Luck) returns (answer: Answer)
      modifies this`rows
      ensures (Value(), Ended(answer)) == JoinedAlone(old(Value()), user, luck)
    {
      ghost var looked := Advanced((Value(), Looking), user, luck.looks, luck.signs);
      ghost var checked := Advanced(looked, user, luck.checks, luck.signs);
      ghost var counted := Advanced(checked, user, luck.counts, luck.signs);
      if !luck.looks {
        return Broken;
      }
      if status.None? {
        return NotFound;
      }
      assert looked == (Value(), Checking(status.value));
      if !luck.checks {
        return Broken;
      }
      if user in rows {
        return if luck.signs then Token else Broken;
      }
      if !status.value.Pending? {
        return NotPending;
      }
      assert checked == (Value(), Counting);
      if !luck.counts {
        return Broken;
      }
      if |rows| >= MAX_PARTICIPANTS {
        return Full;
      }
      assert counted == (Value(), Adding);
      answer := AddParticipant(user, luck.adds);
      if answer == Token && !luck.signs {
        answer := Broken;
      }
    }

    method LeaveRace(user: UserId, looks: bool, removes: bool) returns (answer: Answer)
      modifies this`rows
      ensures (Value(), LeaveEnded(answer)) == LeftAlone(old(Value()), user, looks, removes)
    {
      if !looks {
        return Broken;
      }
      if status.None? {
        return NotFound;
      }
      if !status.value.Pending? {
        return NotPending;
      }
      if !removes {
        return Broken;
      }
      if user !in rows {
        return NotParticipant;
      }
      rows := rows - {user};
      return Token;
    }
  }

  predicate AllWell(luck: Luck) {
    luck.looks && luck.checks && luck.counts && luck.adds
  }

  /** Alone, a join adds a row if and only if the race is pending, the user is not in
      it, it is not full, and no database call fails; otherwise no row changes. */
  lemma JoinAddsIff(race: Race, user: UserId, luck: Luck)
    ensures var rows := JoinedAlone(race, user, luck).0.rows;
            && (rows == race.rows || rows == race.rows + {user})
            && (user in rows - race.rows <==>
                  race.status == Some(Pending) && user !in race.rows && |race.rows| < MAX_PARTICIPANTS && AllWell(luck))
  {
    if !luck.looks || race.status.None? {
      JoinLooks(race, user, luck);
    } else if !luck.checks || user in race.rows || race.status.value != Pending {
      JoinChecks(race, user, luck);
    } else {
      JoinCounts(race, user, luck);
    }
  }

  // Where a join alone ends, by the call that ends it.

  lemma JoinLooks(race: Race, user: UserId, luck: Luck)
    requires !luck.looks || race.status.None?
    ensures JoinedAlone(race, user, luck) == (race, Ended(if !luck.looks then Broken else NotFound))
  {
    assert Advanced((race, Looking), user, luck.looks, luck.signs).1.Ended?;
  }

  lemma JoinChecks(race: Race, user: UserId, luck: Luck)
    requires luck.looks && race.status.Some?
    requires !luck.checks || user in race.rows || race.status.value != Pending
    ensures JoinedAlone(race, user, luck) ==
            (race, Ended(if !luck.checks then Broken
                         else if user in race.rows then (if luck.signs then Token else Broken)
                         else NotPending))
  {
    var looked := Advanced((race, Looking), user, luck.looks, luck.signs);
    assert looked == (race, Checking(race.status.value));
    assert Advanced(looked, user, luck.checks, luck.signs).1.Ended?;
  }

  lemma JoinCounts(race: Race, user: UserId, luck: Luck)
    requires luck.looks && race.status == Some(Pending) && luck.checks && user !in race.rows
    ensures JoinedAlone(race, user, luck) ==
            if !luck.counts then (race, Ended(Broken))
            else if |race.rows| >= 10 then (race, Ended(Full))
            else if !luck.adds then (race, Ended(Broken))
            else (race.(rows := race.rows + {user}), Ended(if luck.signs then Token else Broken))
  {
    var looked := Advanced((race, Looking), user, luck.looks, luck.signs);
    assert looked == (race, Checking(Pending));
    var checked := Advanced(looked, user, luck.checks, luck.signs);
    assert checked == (race, Counting);
    var counted := Advanced(checked, user, luck.counts, luck.signs);
    assert luck.counts && |race.rows| < 10 ==> counted == (race, Adding);
  }

  // ------------------------------------------------------- calls interleaved

  datatype Service = Service(race: Race, joins: map<nat, Join>, leaves: map<nat, Leave>)

  datatype Move =
    | StartJoin(id: nat, user: UserId)
    | StepJoin(id: nat, ok: bool, signs: bool)
    | StartLeave(id: nat, user: UserId)
    | StepLeave(id: nat, ok: bool)
    | SetStatus(status: Option<Status>)

  function Moved(s: Service, m: Move): Service {
    match m
    case StartJoin(id, user) => if id in s.joins then s else s.(joins := s.joins[id := Join(user, Looking)])
    case StepJoin(id, ok, signs) =>
      if id !in s.joins then s
      else
        var (race, stage) := JoinCall(s.race, s.joins[id], ok, signs);
        s.(race := race, joins := s.joins[id := s.joins[id].(stage := stage)])
    case StartLeave(id, user) => if id in s.leaves then s else s.(leaves := s.leaves[id := Leave(user, LeaveLooking)])
    case StepLeave(id, ok) =>
      if id !in s.leaves then s
      else
        var (race, stage) := LeaveCall(s.race, s.leaves[id], ok);
        s.(race := race, leaves := s.leaves[id := s.leaves[id].(stage := stage)])
    case SetStatus(status) => s.(race := s.race.(status := status))
  }

  /** A race just created: its creator's row is still to be added, unchecked. */
  function Created(): Service {
    Service(Race(Some(Pending), {}), map[0 := Join("", Adding)], map[])
  }

  function AfterMoves(ms: seq<Move>): Service {
    if |ms| == 0 then Created() else Moved(AfterMoves(ms[..|ms| - 1]), ms[|ms| - 1])
  }

  /** The joins past their count check, whose insert is still to come. */
  function Cleared(s: Service): set<nat> {
    set id | id in s.joins && s.joins[id].stage.Adding?
  }

  /** The joins still in progress. */
  function Open(s: Service): set<nat> {
    set id | id in s.joins && !s.joins[id].stage.Ended?
  }

  /** At no moment are more than k joins between their count and their insert. */
  ghost predicate Overlaps(ms: seq<Move>, k: nat) {
    forall j :: 0 <= j <= |ms| ==> |Cleared(AfterMoves(ms[..j]))| <= k
  }

  lemma OverlapsBefore(ms: seq<Move>, k: nat)
    requires |ms| > 0 && Overlaps(ms, k)
    ensures Overlaps(ms[..|ms| - 1], k)
  {
    var before := ms[..|ms| - 1];
    forall j | 0 <= j <= |before| ensures |Cleared(AfterMoves(before[..j]))| <= k {
      assert before[..j] == ms[..j];
    }
  }

  /** Only a join's own step changes who is cleared. */
  lemma StepClears(s: Service, m: Move)
    ensures var t := Moved(s, m);
            Cleared(t) == if !m.StepJoin? || m.id !in s.joins then Cleared(s)
                          else if t.joins[m.id].stage.Adding? then Cleared(s) + {m.id} else Cleared(s) - {m.id}
  {
  }

  /** A row is gained only by the insert of a cleared join, and a join is cleared
      only when it has counted fewer rows than the cap. */
  lemma StepRows(s: Service, m: Move)
    ensures |Moved(s, m).race.rows| <= |s.race.rows| + 1
    ensures |Moved(s, m).race.rows| > |s.race.rows| ==>
              m.StepJoin? && m.id in Cleared(s) && m.id !in Cleared(Moved(s, m))
    ensures m.StepJoin? && m.id !in Cleared(s) && m.id in Cleared(Moved(s, m)) ==>
              |Moved(s, m).race.rows| < MAX_PARTICIPANTS
  {
  }

  lemma StepCounts(s: Service, m: Move, k: nat)
    requires |s.race.rows| + |Cleared(s)| <= MAX_PARTICIPANTS - 1 + k
    requires |Cleared(Moved(s, m))| <= k
    ensures |Moved(s, m).race.rows| + |Cleared(Moved(s, m))| <= MAX_PARTICIPANTS - 1 + k
  {
    StepClears(s, m);
    StepRows(s, m);
  }

  /** In any interleaving with other joins, leaves and status changes, if at most
      k joins are ever between their count and their insert, the rows and those
      joins together never exceed the cap by more than k - 1. */
  lemma {:induction false} CapacityHolds(ms: seq<Move>, k: nat)
    requires Overlaps(ms, k)
    ensures |AfterMoves(ms).race.rows| + |Cleared(AfterMoves(ms))| <= MAX_PARTICIPANTS - 1 + k
  {
    assert ms[..|ms|] == ms;
    if |ms| == 0 {
      assert Cleared(Created()) == {0};
    } else {
      OverlapsBefore(ms, k);
      CapacityHolds(ms[..|ms| - 1], k);
      StepCounts(AfterMoves(ms[..|ms| - 1]), ms[|ms| - 1], k);
    }
  }

  /** One join at a time, the cap is the cap. */
  lemma SerialNeverOverfills(ms: seq<Move>)
    requires forall j :: 0 <= j <= |ms| ==> |Open(AfterMoves(ms[..j]))| <= 1
    ensures |AfterMoves(ms).race.rows| <= MAX_PARTICIPANTS
  {
    forall j | 0 <= j <= |ms| ensures |Cleared(AfterMoves(ms[..j]))| <= 1 {
      SubsetSize(Cleared(AfterMoves(ms[..j])), Open(AfterMoves(ms[..j])));
    }
    CapacityHolds(ms, 1);
  }

  // ------------------------------------------------------- the bound is tight

  /** A user for every number. */
  function User(id: nat): (u: UserId)
    ensures |u| == id
  {
    seq(id, _ => 'u')
  }

  /** Joins 0 to n - 1: the first `landed` are done and the others about to insert. */
  ghost predicate Lined(joins: map<nat, Join>, landed: nat, n: nat) {
    && (forall id: nat :: id in joins <==> id < n)
    && (forall id: nat :: id in joins ==> joins[id] == Join(User(id), if id < landed then Ended(Token) else Adding))
  }

  /** Users 0 to `landed` have joined and the next `waiting` are about to insert. */
  ghost predicate Rush(s: Service, landed: nat, waiting: nat) {
    && s.race.status == Some(Pending)
    && |s.race.rows| == landed
    && |Cleared(s)| == waiting
    && (forall u :: u in s.race.rows ==> |u| < landed)
    && Lined(s.joins, landed, landed + waiting)
  }

  lemma OverlapsNext(ms: seq<Move>, m: Move, k: nat)
    requires Overlaps(ms, k) && |Cleared(Moved(AfterMoves(ms), m))| <= k
    ensures Overlaps(ms + [m], k) && AfterMoves(ms + [m]) == Moved(AfterMoves(ms), m)
  {
    assert (ms + [m])[..|ms|] == ms;
    forall j | 0 <= j <= |ms + [m]| ensures |Cleared(AfterMoves((ms + [m])[..j]))| <= k {
      if j <= |ms| {
        assert (ms + [m])[..j] == ms[..j];
      } else {
        assert (ms + [m])[..j] == ms + [m];
      }
    }
  }

  function At(s: Service, id: nat, stage: Stage): Service {
    s.(joins := s.joins[id := Join(User(id), stage)])
  }

  lemma Asks(s: Service, id: nat)
    requires id !in s.joins && User(id) !in s.race.rows
    requires s.race.status == Some(Pending) && |s.race.rows| < MAX_PARTICIPANTS
    ensures Moved(s, StartJoin(id, User(id))) == At(s, id, Looking)
    ensures Moved(At(s, id, Looking), StepJoin(id, true, true)) == At(s, id, Checking(Pending))
    ensures Moved(At(s, id, Checking(Pending)), StepJoin(id, true, true)) == At(s, id, Counting)
    ensures Moved(At(s, id, Counting), StepJoin(id, true, true)) == At(s, id, Adding)
  {
  }

  lemma AtCleared(s: Service, id: nat, stage: Stage)
    requires id !in s.joins
    ensures Cleared(At(s, id, stage)) == if stage.Adding? then Cleared(s) + {id} else Cleared(s)
    ensures |Cleared(At(s, id, stage))| == |Cleared(s)| + if stage.Adding? then 1 else 0
  {
    assert id !in Cleared(s);
  }

  lemma LinedNext(joins: map<nat, Join>, landed: nat, n: nat)
    requires Lined(joins, landed, n) && landed <= n
    ensures n !in joins && Lined(joins[n := Join(User(n), Adding)], landed, n + 1)
  {
  }

  lemma Waits(s: Service, landed: nat, waiting: nat)
    requires Rush(s, landed, waiting)
    ensures Rush(At(s, landed + waiting, Adding), landed, waiting + 1)
  {
    LinedNext(s.joins, landed, landed + waiting);
    AtCleared(s, landed + waiting, Adding);
  }

  lemma Walked(ms: seq<Move>, id: nat, k: nat) returns (more: seq<Move>)
    requires Overlaps(ms, k)
    requires var s := AfterMoves(ms);
             && id !in s.joins && User(id) !in s.race.rows
             && s.race.status == Some(Pending) && |s.race.rows| < MAX_PARTICIPANTS
             && |Cleared(s)| < k
    ensures Overlaps(more, k) && AfterMoves(more) == At(AfterMoves(ms), id, Adding)
  {
    var s := AfterMoves(ms);
    var act := StepJoin(id, true, true);
    Asks(s, id);
    AtCleared(s, id, Looking);
    OverlapsNext(ms, StartJoin(id, User(id)), k);
    more := ms + [StartJoin(id, User(id))];
    AtCleared(s, id, Checking(Pending));
    OverlapsNext(more, act, k);
    more := more + [act];
    AtCleared(s, id, Counting);
    OverlapsNext(more, act, k);
    more := more + [act];
    AtCleared(s, id, Adding);
    OverlapsNext(more, act, k);
    more := more + [act];
  }

  lemma OneMoreWaits(ms: seq<Move>, landed: nat, waiting: nat, k: nat) returns (more: seq<Move>)
    requires Overlaps(ms, k) && Rush(AfterMoves(ms), landed, waiting)
    requires waiting < k && landed < MAX_PARTICIPANTS
    ensures Overlaps(more, k) && Rush(AfterMoves(more), landed, waiting + 1)
  {
    Waits(AfterMoves(ms), landed, waiting);
    more := Walked(ms, landed + waiting, k);
  }

  lemma Lands(s: Service, landed: nat, waiting: nat)
    requires Rush(s, landed, waiting + 1)
    ensures Rush(Moved(s, StepJoin(landed, true, true)), landed + 1, waiting)
  {
    var t := Moved(s, StepJoin(landed, true, true));
    assert t.race.rows == s.race.rows + {User(landed)};
    assert Cleared(t) == Cleared(s) - {landed};
  }

  lemma OneMoreLands(ms: seq<Move>, landed: nat, waiting: nat, k: nat) returns (more: seq<Move>)
    requires Overlaps(ms, k) && Rush(AfterMoves(ms), landed, waiting + 1) && waiting < k
    ensures Overlaps(more, k) && Rush(AfterMoves(more), landed + 1, waiting)
  {
    var act := StepJoin(landed, true, true);
    Lands(AfterMoves(ms), landed, waiting);
    OverlapsNext(ms, act, k);
    more := ms + [act];
  }

  lemma {:induction false} Filled(n: nat, k: nat) returns (ms: seq<Move>)
    requires 0 < n <= MAX_PARTICIPANTS && k > 0
    ensures Overlaps(ms, k) && Rush(AfterMoves(ms), n, 0)
  {
    if n == 1 {
      ms := [];
      assert AfterMoves(ms) == Created() && Cleared(Created()) == {0} && User(0) == "";
    } else {
      ms := Filled(n - 1, k);
      ms := OneMoreWaits(ms, n - 1, 0, k);
    }
    ms := OneMoreLands(ms, n - 1, 0, k);
  }

  lemma {:induction false} Gathered(waiting: nat, k: nat) returns (ms: seq<Move>)
    requires 0 < k && waiting <= k
    ensures Overlaps(ms, k) && Rush(AfterMoves(ms), MAX_PARTICIPANTS - 1, waiting)
  {
    if waiting == 0 {
      ms := Filled(MAX_PARTICIPANTS - 1, k);
    } else {
      ms := Gathered(waiting - 1, k);
      ms := OneMoreWaits(ms, MAX_PARTICIPANTS - 1, waiting - 1, k);
    }
  }

  lemma {:induction false} Landed(ms: seq<Move>, landed: nat, waiting: nat, k: nat) returns (more: seq<Move>)
    requires Overlaps(ms, k) && Rush(AfterMoves(ms), landed, waiting) && waiting <= k
    ensures Overlaps(more, k) && Rush(AfterMoves(more), landed + waiting, 0)
    decreases waiting
  {
    more := ms;
    if waiting > 0 {
      more := OneMoreLands(more, landed, waiting - 1, k);
      more := Landed(more, landed + 1, waiting - 1, k);
    }
  }

  /** For every k some run with no more than k such joins ends with exactly k - 1
      participants over the cap, so the bound cannot be lowered. */
  lemma CapacityIsReached(k: nat)
    requires k > 0
    ensures exists ms :: Overlaps(ms, k) && |AfterMoves(ms).race.rows| == MAX_PARTICIPANTS - 1 + k
  {
    var ms := Gathered(k, k);
    ms := Landed(ms, MAX_PARTICIPANTS - 1, k, k);
  }
}
