/** The tables of finished races: one transaction per finished race, the
    reconciliation that may follow it, and the leaderboard both feed. */
module Store {
  import opened Options
  import opened RoomModel
  import opened Shared

  datatype RaceRow = RaceRow(status: Status, endedAt: Option<int>)

  datatype ParticipantRow = ParticipantRow(
    finishRank: Option<int>,
    finishTimeMs: Option<int>,
    avgPaceWatt: Option<real>,
    disconnectedCount: nat)

  /** One row of leaderboard_alltime. */
  datatype Totals = Totals(best: Option<int>, races: nat, distance: int, wins: nat, paceSum: real)

  type Races = map<RaceId, RaceRow>
  type Rows = map<(RaceId, UserId), ParticipantRow>
  type Board = map<UserId, Totals>

  // ------------------------------------------------- what one statement does

  function FinishStatus(races: Races, raceId: RaceId, now: int): Races {
    if raceId in races then races[raceId := RaceRow(Finished, Some(now))] else races
  }

  function CancelStatus(races: Races, raceId: RaceId, now: int): Races {
    if raceId in races && races[raceId].status.Pending? then races[raceId := RaceRow(Cancelled, Some(now))] else races
  }

  function FinishRow(rows: Rows, raceId: RaceId, r: ParticipantResult): Rows {
    if (raceId, r.userId) in rows then
      rows[(raceId, r.userId) :=
             ParticipantRow(r.finishRank, r.finishTimeMs, Some(r.avgPaceWatt), r.disconnectedCount)]
    else rows
  }

  function ReconcileRow(rows: Rows, raceId: RaceId, j: ResultJson): Rows {
    var key := (raceId, j.userId);
    if key in rows && rows[key].finishRank.None? then
      rows[key := rows[key].(finishRank := j.finishRank, finishTimeMs := j.finishTimeMs,
                             avgPaceWatt := Some(j.avgPaceWatt))]
    else rows
  }

  /** The CASE expression of the upsert, branch by branch. */
  function BetterTime(was: Option<int>, got: Option<int>): Option<int> {
    if got.None? then was
    else if was.None? then got
    else if got.value < was.value then got
    else was
  }

  function Wins(r: ParticipantResult): nat {
    if r.finishRank.Some? && r.finishRank.value == 1 then 1 else 0
  }

  function Upsert(board: Board, distance: int, r: ParticipantResult): Board {
    board[r.userId :=
            if r.userId in board then
              var t := board[r.userId];
              Totals(BetterTime(t.best, r.finishTimeMs), t.races + 1, t.distance + distance,
                     t.wins + Wins(r), t.paceSum + r.avgPaceWatt)
            else Totals(r.finishTimeMs, 1, distance, Wins(r), r.avgPaceWatt)]
  }

  // ------------------------------------------------- what a whole call does

  function FinishRows(rows: Rows, raceId: RaceId, rs: seq<ParticipantResult>): Rows {
    if |rs| == 0 then rows else FinishRow(FinishRows(rows, raceId, rs[..|rs| - 1]), raceId, rs[|rs| - 1])
  }

  function ReconcileRows(rows: Rows, raceId: RaceId, js: seq<ResultJson>): Rows {
    if |js| == 0 then rows else ReconcileRow(ReconcileRows(rows, raceId, js[..|js| - 1]), raceId, js[|js| - 1])
  }

  function UpsertAll(board: Board, distance: int, rs: seq<ParticipantResult>): Board {
    if |rs| == 0 then board else Upsert(UpsertAll(board, distance, rs[..|rs| - 1]), distance, rs[|rs| - 1])
  }

  /** Where a call may fail; a fault past the last result never strikes. */
  datatype Fault =
    | NoFault
    | BeginFails
    | StatusFails
    | RowFails(at: nat)
    | UpsertFails(at: nat)
    | CommitFails

  predicate Strikes(f: Fault, n: nat) {
    match f
    case NoFault => false
    case RowFails(at) => at < n
    case UpsertFails(at) => at < n
    case _ => true
  }

  /** The tables, and the calls that write them.  A transaction works on copies and
      assigns the fields only when it commits. */
  class Database {
    var races: Races
    var rows: Rows
    var board: Board

    constructor (races: Races, rows: Rows, board: Board)
      ensures this.races == races && this.rows == rows && this.board == board
    {
      this.races := races;
      this.rows := rows;
      this.board := board;
    }

    /** All three tables change together, or none does. */
    method FinishRace(raceId: RaceId, distance: int, results: seq<ParticipantResult>, now: int, fault: Fault)
      returns (ok: bool)
      modifies this
      ensures ok == !Strikes(fault, |results|)
      ensures ok ==> races == FinishStatus(old(races), raceId, now)
      ensures ok ==> rows == FinishRows(old(rows), raceId, results)
      ensures ok ==> board == UpsertAll(old(board), distance, results)
      ensures !ok ==> races == old(races) && rows == old(rows) && board == old(board)
    {
      if fault.BeginFails? || fault.StatusFails? {
        return false;
      }
      var races' := FinishStatus(races, raceId, now);
      var rows' := rows;
      var board' := board;
      var k := 0;
      while k < |results|
        invariant k <= |results|
        invariant fault.RowFails? || fault.UpsertFails? ==> fault.at >= k
        invariant rows' == FinishRows(rows, raceId, results[..k])
        invariant board' == UpsertAll(board, distance, results[..k])
        invariant races == old(races) && rows == old(rows) && board == old(board)
      {
        if fault == RowFails(k) {
          return false;
        }
        rows' := FinishRow(rows', raceId, results[k]);
        if fault == UpsertFails(k) {
          return false;
        }
        board' := Upsert(board', distance, results[k]);
        assert results[..k + 1][..k] == results[..k];
        k := k + 1;
      }
      if fault.CommitFails? {
        return false;
      }
      assert results[..k] == results;
      races, rows, board := races', rows', board';
      return true;
    }

    /** Fills in rows that are still without a rank, and nothing else. */
    method ReconcileParticipantResults(raceId: RaceId, results: seq<ResultJson>, fault: Fault) returns (ok: bool)
      modifies this`rows
      ensures ok == !Strikes(fault, |results|)
      ensures rows == if ok then ReconcileRows(old(rows), raceId, results) else old(rows)
    {
      if fault.BeginFails? || fault.StatusFails? {
        return false;
      }
      var rows' := rows;
      var k := 0;
      while k < |results|
        invariant k <= |results|
        invariant fault.RowFails? || fault.UpsertFails? ==> fault.at >= k
        invariant rows' == ReconcileRows(rows, raceId, results[..k]) && rows == old(rows)
      {
        if fault == RowFails(k) || fault == UpsertFails(k) {
          return false;
        }
        rows' := ReconcileRow(rows', raceId, results[k]);
        assert results[..k + 1][..k] == results[..k];
        k := k + 1;
      }
      if fault.CommitFails? {
        return false;
      }
      assert results[..k] == results;
      rows := rows';
      return true;
    }

    method CancelRace(raceId: RaceId, now: int, fault: Fault) returns (ok: bool)
      modifies this`races
      ensures ok == fault.NoFault?
      ensures races == if ok then CancelStatus(old(races), raceId, now) else old(races)
    {
      if !fault.NoFault? {
        return false;
      }
      races := CancelStatus(races, raceId, now);
      return true;
    }
  }

  // ------------------------------------------------------------ how a race ends

  /** A committed call that ends a race. */
  datatype Ending = Finishes(raceId: RaceId, now: int) | Cancels(raceId: RaceId, now: int)

  function AfterEnding(races: Races, e: Ending): Races {
    match e
    case Finishes(raceId, now) => FinishStatus(races, raceId, now)
    case Cancels(raceId, now) => CancelStatus(races, raceId, now)
  }

  function AfterEndings(races: Races, es: seq<Ending>): Races {
    if |es| == 0 then races else AfterEnding(AfterEndings(races, es[..|es| - 1]), es[|es| - 1])
  }

  /** No call in es[from..to] finishes this race. */
  predicate NoFinish(es: seq<Ending>, raceId: RaceId, from: nat, to: nat)
    requires to <= |es|
  {
    forall k :: from <= k < to ==> !(es[k].Finishes? && es[k].raceId == raceId)
  }

  predicate NoCancel(es: seq<Ending>, raceId: RaceId, to: nat)
    requires to <= |es|
  {
    forall k :: 0 <= k < to ==> !(es[k].Cancels? && es[k].raceId == raceId)
  }

  predicate LastFinish(es: seq<Ending>, raceId: RaceId, k: nat) {
    k < |es| && es[k].Finishes? && es[k].raceId == raceId && NoFinish(es, raceId, k + 1, |es|)
  }

  predicate FirstCancel(es: seq<Ending>, raceId: RaceId, k: nat) {
    k < |es| && es[k].Cancels? && es[k].raceId == raceId && NoCancel(es, raceId, k)
  }

  lemma EarlierCalls(es: seq<Ending>, raceId: RaceId)
    requires |es| > 0
    ensures var before, e := es[..|es| - 1], es[|es| - 1];
      && (NoFinish(es, raceId, 0, |es|) <==>
            NoFinish(before, raceId, 0, |before|) && !(e.Finishes? && e.raceId == raceId))
      && (NoCancel(es, raceId, |es|) <==>
            NoCancel(before, raceId, |before|) && !(e.Cancels? && e.raceId == raceId))
      && (forall k: nat :: k < |before| && LastFinish(es, raceId, k) ==> LastFinish(before, raceId, k))
      && (forall k: nat :: k < |before| && FirstCancel(es, raceId, k) ==> FirstCancel(before, raceId, k))
  {
  }

  /** Whatever the order of such calls, for this race and others: a race that some call
      finished has finished, as of the last of them, and no cancellation before or after
      matters; one that none did is cancelled exactly if it was pending and some call
      cancelled it, as of the first of them; and any other is as it was. */
  lemma {:induction false} RaceEndsAs(races: Races, es: seq<Ending>, raceId: RaceId)
    requires raceId in races
    ensures var after := AfterEndings(races, es);
      && raceId in after
      && after[raceId].status == (if !NoFinish(es, raceId, 0, |es|) then Finished
                                  else if !NoCancel(es, raceId, |es|) && races[raceId].status.Pending? then Cancelled
                                  else races[raceId].status)
      && (forall k: nat :: LastFinish(es, raceId, k) ==> after[raceId] == RaceRow(Finished, Some(es[k].now)))
      && (NoFinish(es, raceId, 0, |es|) && races[raceId].status.Pending? ==>
            forall k: nat :: FirstCancel(es, raceId, k) ==> after[raceId] == RaceRow(Cancelled, Some(es[k].now)))
      && (NoFinish(es, raceId, 0, |es|) && (NoCancel(es, raceId, |es|) || !races[raceId].status.Pending?) ==>
            after[raceId] == races[raceId])
  {
    if |es| > 0 {
      var before, e := es[..|es| - 1], es[|es| - 1];
      RaceEndsAs(races, before, raceId);
      EarlierCalls(es, raceId);
      EndingAfter(AfterEndings(races, before), e, raceId);
      if !NoFinish(before, raceId, 0, |before|) {
        var k := FinishesLast(before, raceId);
      }
      if !NoCancel(before, raceId, |before|) {
        var k := CancelsFirst(before, raceId);
      }
    }
  }

  lemma EndingAfter(races: Races, e: Ending, raceId: RaceId)
    requires raceId in races
    ensures var after := AfterEnding(races, e);
      && raceId in after
      && after[raceId] == if e.raceId != raceId then races[raceId]
                          else if e.Finishes? then RaceRow(Finished, Some(e.now))
                          else if races[raceId].status.Pending? then RaceRow(Cancelled, Some(e.now))
                          else races[raceId]
  {
  }

  lemma {:induction false} FinishesLast(es: seq<Ending>, raceId: RaceId) returns (k: nat)
    requires !NoFinish(es, raceId, 0, |es|)
    ensures LastFinish(es, raceId, k)
  {
    k := |es| - 1;
    if !(es[k].Finishes? && es[k].raceId == raceId) {
      k := FinishesLast(es[..k], raceId);
    }
  }

  lemma {:induction false} CancelsFirst(es: seq<Ending>, raceId: RaceId) returns (k: nat)
    requires !NoCancel(es, raceId, |es|)
    ensures FirstCancel(es, raceId, k)
  {
    if NoCancel(es, raceId, |es| - 1) {
      k := |es| - 1;
    } else {
      k := CancelsFirst(es[..|es| - 1], raceId);
    }
  }

  // ------------------------------------------------------------- redelivery

  function RowOf(r: ParticipantResult): ParticipantRow {
    ParticipantRow(r.finishRank, r.finishTimeMs, Some(r.avgPaceWatt), r.disconnectedCount)
  }

  /** The last result listed for a user. */
  function LastOf(rs: seq<ParticipantResult>, u: UserId): (r: Option<ParticipantResult>)
    ensures r.Some? ==> r.value in rs && r.value.userId == u
    ensures r.None? ==> forall k :: 0 <= k < |rs| ==> rs[k].userId != u
  {
    if |rs| == 0 then None
    else if rs[|rs| - 1].userId == u then Some(rs[|rs| - 1])
    else LastOf(rs[..|rs| - 1], u)
  }

  /** After n results, the rows of their users are the last word on each of them. */
  lemma {:induction false} FinishRowsAt(rows: Rows, raceId: RaceId, rs: seq<ParticipantResult>, key: (RaceId, UserId))
    ensures var t := FinishRows(rows, raceId, rs);
      && (key in t <==> key in rows)
      && (key in rows ==>
            t[key] == if key.0 == raceId && LastOf(rs, key.1).Some? then RowOf(LastOf(rs, key.1).value) else rows[key])
  {
    if |rs| > 0 {
      FinishRowsAt(rows, raceId, rs[..|rs| - 1], key);
    }
  }

  /** The last of these results to name the user. */
  predicate LastNamed(rs: seq<ParticipantResult>, u: UserId, k: nat) {
    k < |rs| && rs[k].userId == u && forall j :: k < j < |rs| ==> rs[j].userId != u
  }

  lemma {:induction false} LastOfIs(rs: seq<ParticipantResult>, u: UserId, k: nat)
    requires LastNamed(rs, u, k)
    ensures LastOf(rs, u) == Some(rs[k])
  {
    if k < |rs| - 1 {
      LastOfIs(rs[..|rs| - 1], u, k);
    }
  }

  /** A finish leaves on each listed user's row what the last result for them says, and
      every other row as it was. */
  lemma FinishedRowIs(rows: Rows, raceId: RaceId, rs: seq<ParticipantResult>, key: (RaceId, UserId))
    requires key in rows
    ensures var t := FinishRows(rows, raceId, rs);
      && key in t
      && (key.0 != raceId || (forall k :: 0 <= k < |rs| ==> rs[k].userId != key.1) ==> t[key] == rows[key])
      && (forall k: nat :: key.0 == raceId && LastNamed(rs, key.1, k) ==>
            && t[key].finishRank == rs[k].finishRank && t[key].finishTimeMs == rs[k].finishTimeMs
            && t[key].avgPaceWatt == Some(rs[k].avgPaceWatt) && t[key].disconnectedCount == rs[k].disconnectedCount)
  {
    FinishRowsAt(rows, raceId, rs, key);
    forall k: nat | LastNamed(rs, key.1, k) ensures LastOf(rs, key.1) == Some(rs[k]) {
      LastOfIs(rs, key.1, k);
    }
  }

  /** One user's row under the results of a reconciliation. */
  function Filled(row: ParticipantRow, js: seq<ResultJson>, u: UserId): ParticipantRow {
    if |js| == 0 then row
    else
      var r := Filled(row, js[..|js| - 1], u);
      var j := js[|js| - 1];
      if j.userId == u && r.finishRank.None? then
        r.(finishRank := j.finishRank, finishTimeMs := j.finishTimeMs, avgPaceWatt := Some(j.avgPaceWatt))
      else r
  }

  lemma {:induction false} ReconcileRowsAt(rows: Rows, raceId: RaceId, js: seq<ResultJson>, key: (RaceId, UserId))
    ensures var t := ReconcileRows(rows, raceId, js);
      && (key in t <==> key in rows)
      && (key in rows ==> t[key] == if key.0 == raceId then Filled(rows[key], js, key.1) else rows[key])
  {
    if |js| > 0 {
      ReconcileRowsAt(rows, raceId, js[..|js| - 1], key);
    }
  }

  lemma {:induction false} FilledOnce(row: ParticipantRow, js: seq<ResultJson>, u: UserId)
    requires row.finishRank.Some?
    ensures Filled(row, js, u) == row
  {
    if |js| > 0 {
      FilledOnce(row, js[..|js| - 1], u);
    }
  }

  /** The first of these results to rank the user, or, where none does, the last to name
      them: the one that an unranked row ends up with. */
  predicate Fills(js: seq<ResultJson>, u: UserId, k: nat) {
    && k < |js| && js[k].userId == u
    && (js[k].finishRank.Some? || forall j :: k < j < |js| ==> js[j].userId != u)
    && forall j :: 0 <= j < k && js[j].userId == u ==> js[j].finishRank.None?
  }

  predicate Shows(row: ParticipantRow, j: ResultJson) {
    row.finishRank == j.finishRank && row.finishTimeMs == j.finishTimeMs && row.avgPaceWatt == Some(j.avgPaceWatt)
  }

  lemma {:induction false} FilledWith(row: ParticipantRow, js: seq<ResultJson>, u: UserId, k: nat)
    requires row.finishRank.None? && Fills(js, u, k)
    ensures Shows(Filled(row, js, u), js[k])
  {
    var n := |js| - 1;
    if k < n {
      if js[k].finishRank.Some? {
        FilledWith(row, js[..n], u, k);
      } else {
        assert js[n].userId != u;
        FilledWith(row, js[..n], u, k);
      }
    } else {
      FilledUnranked(row, js[..n], u);
    }
  }

  lemma {:induction false} FilledUnranked(row: ParticipantRow, js: seq<ResultJson>, u: UserId)
    requires row.finishRank.None?
    requires forall j :: 0 <= j < |js| && js[j].userId == u ==> js[j].finishRank.None?
    ensures Filled(row, js, u).finishRank.None?
  {
    if |js| > 0 {
      FilledUnranked(row, js[..|js| - 1], u);
    }
  }

  lemma {:induction false} FilledCount(row: ParticipantRow, js: seq<ResultJson>, u: UserId)
    ensures Filled(row, js, u).disconnectedCount == row.disconnectedCount
  {
    if |js| > 0 {
      FilledCount(row, js[..|js| - 1], u);
    }
  }

  /** A reconciliation gives each unranked row of the race what the first result to rank
      its user says, or else the last to name them, and leaves disconnect counts, ranked
      rows and all others as they are. */
  lemma ReconciledRowIs(rows: Rows, raceId: RaceId, js: seq<ResultJson>, key: (RaceId, UserId))
    requires key in rows
    ensures var t := ReconcileRows(rows, raceId, js);
      && key in t && t[key].disconnectedCount == rows[key].disconnectedCount
      && (key.0 != raceId || rows[key].finishRank.Some? || (forall k :: 0 <= k < |js| ==> js[k].userId != key.1) ==>
            t[key] == rows[key])
      && (forall k: nat :: key.0 == raceId && rows[key].finishRank.None? && Fills(js, key.1, k) ==>
            Shows(t[key], js[k]))
  {
    ReconcileRowsAt(rows, raceId, js, key);
    FilledCount(rows[key], js, key.1);
    if rows[key].finishRank.Some? {
      FilledOnce(rows[key], js, key.1);
    } else if forall k :: 0 <= k < |js| ==> js[k].userId != key.1 {
      FilledElsewhere(rows[key], js, key.1);
    }
    forall k: nat | key.0 == raceId && rows[key].finishRank.None? && Fills(js, key.1, k)
      ensures Shows(ReconcileRows(rows, raceId, js)[key], js[k])
    {
      FilledWith(rows[key], js, key.1, k);
    }
  }

  predicate Names(js: seq<ResultJson>, u: UserId) {
    |js| > 0 && (js[|js| - 1].userId == u || Names(js[..|js| - 1], u))
  }

  /** Results that leave an unranked row unranked leave every such row the same. */
  lemma {:induction false} FilledAlike(a: ParticipantRow, b: ParticipantRow, js: seq<ResultJson>, u: UserId)
    requires a.finishRank.None? && b.finishRank.None? && a.disconnectedCount == b.disconnectedCount
    requires Filled(a, js, u).finishRank.None?
    ensures Filled(b, js, u).finishRank.None?
    ensures Filled(a, js, u).disconnectedCount == a.disconnectedCount
    ensures Filled(b, js, u) == if Names(js, u) then Filled(a, js, u) else b
    ensures !Names(js, u) ==> Filled(a, js, u) == a
  {
    if |js| > 0 {
      FilledAlike(a, b, js[..|js| - 1], u);
    }
  }

  lemma FilledTwice(row: ParticipantRow, js: seq<ResultJson>, u: UserId)
    ensures Filled(Filled(row, js, u), js, u) == Filled(row, js, u)
  {
    var r := Filled(row, js, u);
    if r.finishRank.Some? {
      FilledOnce(r, js, u);
    } else if row.finishRank.Some? {
      FilledOnce(row, js, u);
    } else {
      FilledAlike(row, row, js, u);
      FilledAlike(row, r, js, u);
    }
  }

  /** Reconciling twice is reconciling once, whatever the results say. */
  lemma ReconcileTwice(rows: Rows, raceId: RaceId, js: seq<ResultJson>)
    ensures var t := ReconcileRows(rows, raceId, js); ReconcileRows(t, raceId, js) == t
  {
    var t := ReconcileRows(rows, raceId, js);
    var tt := ReconcileRows(t, raceId, js);
    forall key: (RaceId, UserId)
      ensures key in tt <==> key in t
      ensures key in t ==> tt[key] == t[key]
    {
      ReconcileRowsAt(rows, raceId, js, key);
      ReconcileRowsAt(t, raceId, js, key);
      if key in rows {
        FilledTwice(rows[key], js, key.1);
      }
    }
    assert tt == t;
  }

  lemma {:induction false} FilledElsewhere(row: ParticipantRow, js: seq<ResultJson>, u: UserId)
    requires forall k :: 0 <= k < |js| ==> js[k].userId != u
    ensures Filled(row, js, u) == row
  {
    if |js| > 0 {
      FilledElsewhere(row, js[..|js| - 1], u);
    }
  }

  /** A reconciliation that arrives before the finish leaves no trace once it is done. */
  lemma FinishAfterReconcile(rows: Rows, raceId: RaceId, rs: seq<ParticipantResult>)
    ensures FinishRows(ReconcileRows(rows, raceId, ToJson(rs)), raceId, rs) == FinishRows(rows, raceId, rs)
  {
    var early := ReconcileRows(rows, raceId, ToJson(rs));
    var t, u := FinishRows(early, raceId, rs), FinishRows(rows, raceId, rs);
    forall key: (RaceId, UserId)
      ensures key in t <==> key in u
      ensures key in u ==> t[key] == u[key]
    {
      ReconcileRowsAt(rows, raceId, ToJson(rs), key);
      FinishRowsAt(early, raceId, rs, key);
      FinishRowsAt(rows, raceId, rs, key);
      if key in rows && LastOf(rs, key.1).None? {
        FilledElsewhere(rows[key], ToJson(rs), key.1);
      }
    }
    assert t == u;
  }

  // ---------------------------------------------- a reconciliation after the finish

  predicate RankedOnce(rs: seq<ParticipantResult>, u: UserId) {
    exists k :: 0 <= k < |rs| && rs[k].userId == u && rs[k].finishRank.Some?
  }

  /** The last result listed for this user is ranked, or none of them is. */
  predicate Steady(rs: seq<ParticipantResult>, u: UserId) {
    LastOf(rs, u).Some? && LastOf(rs, u).value.finishRank.None? ==> !RankedOnce(rs, u)
  }

  lemma ToJsonBefore(rs: seq<ParticipantResult>)
    requires |rs| > 0
    ensures ToJson(rs)[..|rs| - 1] == ToJson(rs[..|rs| - 1])
  {
  }

  /** An unranked row stays unranked exactly under results none of which is ranked. */
  lemma {:induction false} FilledRank(row: ParticipantRow, rs: seq<ParticipantResult>, u: UserId)
    requires row.finishRank.None?
    ensures Filled(row, ToJson(rs), u).finishRank.None? <==> !RankedOnce(rs, u)
  {
    if |rs| > 0 {
      var before := rs[..|rs| - 1];
      FilledRank(row, before, u);
      ToJsonBefore(rs);
      var r := rs[|rs| - 1];
      assert RankedOnce(rs, u) <==> RankedOnce(before, u) || (r.userId == u && r.finishRank.Some?);
    }
  }

  /** And then it shows the last of them. */
  lemma {:induction false} FilledLast(row: ParticipantRow, rs: seq<ParticipantResult>, u: UserId)
    requires row.finishRank.None? && !RankedOnce(rs, u) && LastOf(rs, u).Some?
    requires row.disconnectedCount == LastOf(rs, u).value.disconnectedCount
    ensures Filled(row, ToJson(rs), u) == RowOf(LastOf(rs, u).value)
  {
    var before, r := rs[..|rs| - 1], rs[|rs| - 1];
    ToJsonBefore(rs);
    assert forall k :: 0 <= k < |before| ==> before[k] == rs[k];
    if r.userId != u {
      FilledLast(row, before, u);
    } else {
      FilledRank(row, before, u);
      FilledCount(row, ToJson(before), u);
    }
  }

  lemma FinishedRowIff(rs: seq<ParticipantResult>, u: UserId)
    requires LastOf(rs, u).Some?
    ensures var row := RowOf(LastOf(rs, u).value); Filled(row, ToJson(rs), u) == row <==> Steady(rs, u)
  {
    var row := RowOf(LastOf(rs, u).value);
    if row.finishRank.Some? {
      FilledOnce(row, ToJson(rs), u);
    } else {
      FilledRank(row, rs, u);
      if !RankedOnce(rs, u) {
        FilledLast(row, rs, u);
      }
    }
  }

  /** One user's row after the finish and then the reconciliation. */
  lemma AfterBoth(rows: Rows, raceId: RaceId, rs: seq<ParticipantResult>, key: (RaceId, UserId))
    ensures var t := FinishRows(rows, raceId, rs);
      var tt := ReconcileRows(t, raceId, ToJson(rs));
      && (key in tt <==> key in t) && (key in t <==> key in rows)
      && (key in rows ==> (tt[key] == t[key] <==> key.0 != raceId || Steady(rs, key.1)))
  {
    var t := FinishRows(rows, raceId, rs);
    FinishRowsAt(rows, raceId, rs, key);
    ReconcileRowsAt(t, raceId, ToJson(rs), key);
    if key in rows && key.0 == raceId {
      if LastOf(rs, key.1).Some? {
        FinishedRowIff(rs, key.1);
      } else {
        FilledElsewhere(rows[key], ToJson(rs), key.1);
      }
    }
  }

  /** A reconciliation that arrives after the finish changes nothing if and only if no
      user who has a row is listed first with a rank and last without one. */
  lemma ReconcileAfterFinish(rows: Rows, raceId: RaceId, rs: seq<ParticipantResult>)
    ensures ReconcileRows(FinishRows(rows, raceId, rs), raceId, ToJson(rs)) == FinishRows(rows, raceId, rs)
       <==> forall u :: (raceId, u) in rows ==> Steady(rs, u)
  {
    var t := FinishRows(rows, raceId, rs);
    var tt := ReconcileRows(t, raceId, ToJson(rs));
    forall key: (RaceId, UserId)
      ensures key in tt <==> key in t
      ensures key in t <==> key in rows
      ensures key in t ==> (tt[key] == t[key] <==> key.0 != raceId || Steady(rs, key.1))
    {
      AfterBoth(rows, raceId, rs, key);
    }
    if forall u :: (raceId, u) in rows ==> Steady(rs, u) {
      forall key | key in t ensures tt[key] == t[key] {
        assert key == (key.0, key.1);
      }
      assert tt == t;
    } else {
      var u :| (raceId, u) in rows && !Steady(rs, u);
      assert tt[(raceId, u)] != t[(raceId, u)];
    }
  }

  ghost predicate AllRanked(rs: seq<ParticipantResult>) {
    forall k :: 0 <= k < |rs| ==> rs[k].finishRank.Some?
  }

  ghost predicate UsersApart(rs: seq<ParticipantResult>) {
    forall j, k :: 0 <= j < k < |rs| ==> rs[j].userId != rs[k].userId
  }

  /** So it is for results that are all ranked, or that name each user once. */
  lemma SteadyResults(rs: seq<ParticipantResult>, u: UserId)
    requires AllRanked(rs) || UsersApart(rs)
    ensures Steady(rs, u)
  {
    if RankedOnce(rs, u) {
      var k :| 0 <= k < |rs| && rs[k].userId == u && rs[k].finishRank.Some?;
      var l :| 0 <= l < |rs| && rs[l] == LastOf(rs, u).value;
    }
  }
}
