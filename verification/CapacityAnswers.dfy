/** What an answer to a join or a leave tells the caller about the race: exactly, for a
    call with nothing in between, and in every interleaving of calls. */
module CapacityAnswers {
  import opened Capacity
  import opened Options
  import opened Shared

  // ------------------------------------------------------ a call by itself

  /** The exact condition of each answer to a join. */
  ghost predicate AnswerIs(race: Race, user: UserId, luck: Luck, a: Answer) {
    var here := race.status.Some? && luck.looks;
    var seated := user in race.rows;
    match a
    case NotFound => luck.looks && race.status.None?
    case NotPending => here && luck.checks && !seated && race.status.value != Pending
    case Full =>
      here && luck.checks && !seated && race.status.value == Pending && luck.counts && |race.rows| >= 10
    case Token =>
      here && luck.checks && luck.signs &&
      (seated || (race.status.value == Pending && luck.counts && |race.rows| < 10 && luck.adds))
    case Broken =>
      || !luck.looks
      || (here && !luck.checks)
      || (here && luck.checks && seated && !luck.signs)
      || (here && luck.checks && !seated && race.status.value == Pending &&
          (!luck.counts || (|race.rows| < 10 && (!luck.adds || !luck.signs))))
    case _ => false
  }

  /** Alone, a join gives the one answer whose condition holds, and a token means a row. */
  lemma JoinAnswers(race: Race, user: UserId, luck: Luck)
    ensures JoinedAlone(race, user, luck).1.Ended?
    ensures var (after, stage) := JoinedAlone(race, user, luck);
      && (forall a :: stage == Ended(a) <==> AnswerIs(race, user, luck, a))
      && (stage == Ended(Token) ==> user in after.rows)
      && after.status == race.status
  {
    if !luck.looks || race.status.None? {
      JoinLooks(race, user, luck);
    } else if !luck.checks || user in race.rows || race.status.value != Pending {
      JoinChecks(race, user, luck);
    } else {
      JoinCounts(race, user, luck);
    }
  }

  ghost predicate LeaveAnswerIs(race: Race, user: UserId, looks: bool, removes: bool, a: Answer) {
    match a
    case NotFound => looks && race.status.None?
    case NotPending => looks && race.status.Some? && race.status != Some(Pending)
    case Token => looks && race.status == Some(Pending) && removes && user in race.rows
    case NotParticipant => looks && race.status == Some(Pending) && removes && user !in race.rows
    case Broken => !looks || (race.status == Some(Pending) && !removes)
    case _ => false
  }

  /** It gives the one answer whose condition holds; upon success that user's row is
      gone and no other, and otherwise no row is. */
  lemma LeaveAnswers(race: Race, user: UserId, looks: bool, removes: bool)
    ensures var (after, stage) := LeftAlone(race, user, looks, removes);
      && (forall a :: stage == LeaveEnded(a) <==> LeaveAnswerIs(race, user, looks, removes, a))
      && after.status == race.status
      && (forall u :: u in after.rows <==> u in race.rows && !(u == user && stage == LeaveEnded(Token)))
  {
  }

  // ------------------------------------------------------- calls interleaved

  /** The last move ends this join with this answer. */
  ghost predicate Answered(ms: seq<Move>, id: nat, a: Answer) {
    && |ms| > 0 && ms[|ms| - 1].StepJoin? && ms[|ms| - 1].id == id
    && var s := AfterMoves(ms[..|ms| - 1]);
       id in s.joins && !s.joins[id].stage.Ended? && AfterMoves(ms).joins[id].stage == Ended(a)
  }

  ghost predicate LeaveAnswered(ms: seq<Move>, id: nat, a: Answer) {
    && |ms| > 0 && ms[|ms| - 1].StepLeave? && ms[|ms| - 1].id == id
    && var s := AfterMoves(ms[..|ms| - 1]);
       id in s.leaves && !s.leaves[id].stage.LeaveEnded? && AfterMoves(ms).leaves[id].stage == LeaveEnded(a)
  }

  /** The race as move n found it. */
  ghost function Found(ms: seq<Move>, n: nat): Race
    requires n <= |ms|
  {
    AfterMoves(ms[..n]).race
  }

  /** Move n is a call of this join that the database answered. */
  predicate CallOf(ms: seq<Move>, id: nat, n: nat)
    requires n < |ms|
  {
    ms[n].StepJoin? && ms[n].id == id && ms[n].ok
  }

  /** Before move n, a call of this join found the race in this state. */
  ghost predicate SawStatus(ms: seq<Move>, id: nat, seen: Status, n: nat)
    requires n <= |ms|
  {
    exists i: nat :: i < n && CallOf(ms, id, i) && Found(ms, i).status == Some(seen)
  }

  /** One found it pending and a later one its user without a row. */
  ghost predicate SawAbsent(ms: seq<Move>, id: nat, user: UserId, n: nat)
    requires n <= |ms|
  {
    exists i: nat :: i < n && CallOf(ms, id, i) && user !in Found(ms, i).rows && SawStatus(ms, id, Pending, i)
  }

  /** And a later one still fewer than ten rows. */
  ghost predicate SawRoom(ms: seq<Move>, id: nat, user: UserId, n: nat)
    requires n <= |ms|
  {
    exists i: nat :: i < n && CallOf(ms, id, i) && |Found(ms, i).rows| < 10 && SawAbsent(ms, id, user, i)
  }

  /** How far a join has come tells what it has seen; only the creator's is unchecked. */
  ghost predicate Backed(ms: seq<Move>, id: nat, j: Join) {
    match j.stage
    case Checking(seen) => SawStatus(ms, id, seen, |ms|)
    case Counting => SawAbsent(ms, id, j.user, |ms|)
    case Adding => id == 0 || SawRoom(ms, id, j.user, |ms|)
    case _ => true
  }

  lemma Earlier(ms: seq<Move>, more: seq<Move>, n: nat)
    requires ms <= more && n <= |ms|
    ensures Found(more, n) == Found(ms, n)
    ensures forall id :: n < |ms| ==> (CallOf(more, id, n) <==> CallOf(ms, id, n))
  {
    assert more[..n] == ms[..n];
  }

  lemma StatusStays(ms: seq<Move>, more: seq<Move>, id: nat, seen: Status, n: nat)
    requires ms <= more && n <= |ms| && SawStatus(ms, id, seen, n)
    ensures SawStatus(more, id, seen, n)
  {
    var i: nat :| i < n && CallOf(ms, id, i) && Found(ms, i).status == Some(seen);
    Earlier(ms, more, i);
  }

  lemma AbsentStays(ms: seq<Move>, more: seq<Move>, id: nat, user: UserId, n: nat)
    requires ms <= more && n <= |ms| && SawAbsent(ms, id, user, n)
    ensures SawAbsent(more, id, user, n)
  {
    var i: nat :| i < n && CallOf(ms, id, i) && user !in Found(ms, i).rows && SawStatus(ms, id, Pending, i);
    Earlier(ms, more, i);
    StatusStays(ms, more, id, Pending, i);
  }

  lemma RoomStays(ms: seq<Move>, more: seq<Move>, id: nat, user: UserId, n: nat)
    requires ms <= more && n <= |ms| && SawRoom(ms, id, user, n)
    ensures SawRoom(more, id, user, n)
  {
    var i: nat :| i < n && CallOf(ms, id, i) && |Found(ms, i).rows| < 10 && SawAbsent(ms, id, user, i);
    Earlier(ms, more, i);
    AbsentStays(ms, more, id, user, i);
  }

  /** What backed a join before the last move still does, as of that move. */
  lemma StillBacked(ms: seq<Move>, id: nat, j: Join)
    requires |ms| > 0 && Backed(ms[..|ms| - 1], id, j)
    ensures match j.stage
      case Checking(seen) => SawStatus(ms, id, seen, |ms| - 1)
      case Counting => SawAbsent(ms, id, j.user, |ms| - 1)
      case Adding => id == 0 || SawRoom(ms, id, j.user, |ms| - 1)
      case _ => true
  {
    var before := ms[..|ms| - 1];
    match j.stage
    case Checking(seen) => StatusStays(before, ms, id, seen, |before|);
    case Counting => AbsentStays(before, ms, id, j.user, |before|);
    case Adding => if id != 0 { RoomStays(before, ms, id, j.user, |before|); }
    case _ =>
  }

  /** One call of a join: what it takes to go on, and to end with each answer. */
  lemma CallTells(race: Race, j: Join, ok: bool, signs: bool)
    requires !j.stage.Ended?
    ensures var (after, stage) := JoinCall(race, j, ok, signs);
      && (forall seen :: stage == Checking(seen) <==> j.stage.Looking? && ok && race.status == Some(seen))
      && (stage == Counting <==> j.stage == Checking(Pending) && ok && j.user !in race.rows)
      && (stage == Adding <==> j.stage == Counting && ok && |race.rows| < 10)
      && (stage == Ended(NotFound) <==> j.stage.Looking? && ok && race.status.None?)
      && (stage == Ended(NotPending) <==>
            j.stage.Checking? && j.stage.seen != Pending && ok && j.user !in race.rows)
      && (stage == Ended(Full) <==> j.stage == Counting && ok && |race.rows| >= 10)
      && (stage == Ended(AlreadyJoined) <==> j.stage == Adding && ok && j.user in race.rows)
      && (stage == Ended(Token) <==>
            ok && signs && ((j.stage.Checking? && j.user in race.rows) || (j.stage == Adding && j.user !in race.rows)))
      && stage != Looking && stage != Ended(NotParticipant)
  {
  }

  /** Which rows it leaves. */
  lemma CallRows(race: Race, j: Join, ok: bool, signs: bool)
    ensures var after := JoinCall(race, j, ok, signs).0;
      && after.status == race.status
      && (forall u :: u in after.rows <==> u in race.rows || (u == j.user && j.stage == Adding && ok))
  {
  }

  lemma BackedNow(ms: seq<Move>, id: nat)
    requires |ms| > 0 && ms[|ms| - 1].StepJoin? && ms[|ms| - 1].id == id
    requires id in AfterMoves(ms[..|ms| - 1]).joins
    requires Backed(ms[..|ms| - 1], id, AfterMoves(ms[..|ms| - 1]).joins[id])
    ensures Backed(ms, id, AfterMoves(ms).joins[id])
  {
    var n := |ms| - 1;
    var s, m := AfterMoves(ms[..n]), ms[n];
    var j := s.joins[id];
    StillBacked(ms, id, j);
    if !j.stage.Ended? {
      CallTells(s.race, j, m.ok, m.signs);
      assert Found(ms, n) == s.race;
      assert m.ok ==> CallOf(ms, id, n);
    }
  }

  lemma {:induction false} AlwaysBacked(ms: seq<Move>, id: nat)
    ensures id in AfterMoves(ms).joins ==> Backed(ms, id, AfterMoves(ms).joins[id])
  {
    if |ms| > 0 {
      var before, m := ms[..|ms| - 1], ms[|ms| - 1];
      AlwaysBacked(before, id);
      if id in AfterMoves(before).joins {
        if m.StepJoin? && m.id == id {
          BackedNow(ms, id);
        } else {
          StillBacked(ms, id, AfterMoves(before).joins[id]);
          assert AfterMoves(ms).joins[id] == AfterMoves(before).joins[id];
        }
      }
    }
  }

  /** What an answer given by the last move means. */
  ghost predicate Meant(ms: seq<Move>, id: nat, user: UserId, a: Answer)
    requires |ms| > 0
  {
    var n := |ms| - 1;
    var race := Found(ms, n);
    match a
    case NotFound => race.status.None?
    case NotPending => user !in race.rows && exists seen :: seen != Pending && SawStatus(ms, id, seen, n)
    case Full => |race.rows| >= 10 && SawAbsent(ms, id, user, n)
    case AlreadyJoined => user in race.rows && (id == 0 || SawRoom(ms, id, user, n))
    case Token => user in Found(ms, |ms|).rows && (user in race.rows || id == 0 || SawRoom(ms, id, user, n))
    case NotParticipant => false
    case Broken => true
  }

  lemma LastCall(ms: seq<Move>, id: nat, a: Answer)
    requires Answered(ms, id, a)
    ensures var m, s := ms[|ms| - 1], AfterMoves(ms[..|ms| - 1]);
      && JoinCall(s.race, s.joins[id], m.ok, m.signs) == (AfterMoves(ms).race, Ended(a))
      && AfterMoves(ms).joins[id].user == s.joins[id].user
  {
  }

  /** In every interleaving of joins, leaves and status changes each answer to a join
      means what it says: in particular whoever gets a token has a row then, which was
      there before or was added after the race was seen pending, later the user without
      a row, and later again fewer than ten rows; and a race said to be full holds ten. */
  lemma AnswersMeanWhatTheySay(ms: seq<Move>, id: nat, a: Answer)
    requires Answered(ms, id, a)
    ensures Meant(ms, id, AfterMoves(ms).joins[id].user, a)
  {
    var n := |ms| - 1;
    var s, m := AfterMoves(ms[..n]), ms[n];
    var j := s.joins[id];
    AlwaysBacked(ms[..n], id);
    StillBacked(ms, id, j);
    CallTells(s.race, j, m.ok, m.signs);
    CallRows(s.race, j, m.ok, m.signs);
    LastCall(ms, id, a);
    assert ms[..|ms|] == ms;
  }

  /** A user's row comes with the insert of one of that user's joins, goes with a leave of
      theirs that succeeds, and stays in every other move. */
  lemma RowsMove(s: Service, m: Move, u: UserId)
    ensures var t := Moved(s, m);
      u in t.race.rows <==>
        || (u in s.race.rows &&
            !(m.StepLeave? && m.id in s.leaves && s.leaves[m.id] == Leave(u, Removing) && m.ok))
        || (m.StepJoin? && m.id in s.joins && s.joins[m.id] == Join(u, Adding) && m.ok)
  {
    if m.StepJoin? && m.id in s.joins {
      CallRows(s.race, s.joins[m.id], m.ok, m.signs);
    }
  }

  /** A leave that succeeds leaves its user without a row, who had one until then; one
      told that the user takes no part finds no row. */
  lemma LeavesMeanWhatTheySay(ms: seq<Move>, id: nat, a: Answer)
    requires LeaveAnswered(ms, id, a)
    ensures var user, before, after := AfterMoves(ms).leaves[id].user, Found(ms, |ms| - 1), Found(ms, |ms|);
      && (a == Token ==> user in before.rows && after.rows == before.rows - {user})
      && (a == NotParticipant ==> user !in before.rows)
      && (a == NotFound ==> before.status.None?)
      && (a == NotPending ==> before.status.Some? && before.status != Some(Pending))
      && (a != Token ==> after.rows == before.rows)
      && a != Full && a != AlreadyJoined
  {
    assert ms[..|ms|] == ms;
  }
}
