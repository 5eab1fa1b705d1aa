/** The leaderboard that FinishRace keeps up to date incrementally is what one
    would compute from all committed results, in whatever order they came. */
module Leaderboard {
  import opened Options
  import opened RoomModel
  import opened RoomRanks
  import opened Shared
  import opened Store
  import opened Sums

  /** One result's contribution to its user's totals. */
  datatype Entry = Entry(user: UserId, timeMs: Option<int>, distance: int, wins: nat, pace: real)

  datatype Commit = Commit(raceId: RaceId, distance: int, results: seq<ParticipantResult>)

  function EntryOf(distance: int, r: ParticipantResult): Entry {
    Entry(r.userId, r.finishTimeMs, distance, Wins(r), r.avgPaceWatt)
  }

  function EntriesOf(distance: int, rs: seq<ParticipantResult>): seq<Entry> {
    if |rs| == 0 then [] else EntriesOf(distance, rs[..|rs| - 1]) + [EntryOf(distance, rs[|rs| - 1])]
  }

  /** Everything committed so far, result by result. */
  function History(h: seq<Commit>): seq<Entry> {
    if |h| == 0 then [] else History(h[..|h| - 1]) + EntriesOf(h[|h| - 1].distance, h[|h| - 1].results)
  }

  function Mine(es: seq<Entry>, u: UserId): seq<Entry> {
    if |es| == 0 then []
    else Mine(es[..|es| - 1], u) + (if es[|es| - 1].user == u then [es[|es| - 1]] else [])
  }

  // ------------------------------------------------ the reference definition

  function Total<T>(xs: seq<T>, f: T -> int): int {
    if |xs| == 0 then 0 else Total(xs[..|xs| - 1], f) + f(xs[|xs| - 1])
  }

  function RealTotal<T>(xs: seq<T>, f: T -> real): real {
    if |xs| == 0 then 0.0 else RealTotal(xs[..|xs| - 1], f) + f(xs[|xs| - 1])
  }

  const DISTANCE: Entry -> int := (e: Entry) => e.distance
  const WINS: Entry -> int := (e: Entry) => e.wins
  const PACE: Entry -> real := (e: Entry) => e.pace

  /** The least time among those who finished at all. */
  ghost predicate IsBest(b: Option<int>, es: seq<Entry>) {
    && (forall e :: e in es && e.timeMs.Some? ==> b.Some? && b.value <= e.timeMs.value)
    && (b.Some? ==> exists e :: e in es && e.timeMs == b)
  }

  ghost predicate TotalsOf(t: Totals, es: seq<Entry>) {
    && t.races == |es|
    && t.wins == Total(es, WINS)
    && t.distance == Total(es, DISTANCE)
    && t.paceSum == RealTotal(es, PACE)
    && IsBest(t.best, es)
  }

  /** A row for exactly those with results, and each the totals of their own results. */
  ghost predicate Recomputed(board: Board, es: seq<Entry>) {
    forall u :: (u in board <==> |Mine(es, u)| > 0) && (u in board ==> TotalsOf(board[u], Mine(es, u)))
  }

  // --------------------------------------------------- incremental == recomputed

  lemma TotalsPush(t: Totals, es: seq<Entry>, distance: int, r: ParticipantResult)
    requires TotalsOf(t, es)
    ensures TotalsOf(Totals(BetterTime(t.best, r.finishTimeMs), t.races + 1, t.distance + distance,
                            t.wins + Wins(r), t.paceSum + r.avgPaceWatt), es + [EntryOf(distance, r)])
  {
    var e := EntryOf(distance, r);
    assert (es + [e])[..|es|] == es;
    assert forall x :: x in es + [e] <==> x in es || x == e;
    var b := BetterTime(t.best, r.finishTimeMs);
    if b.Some? {
      if b == t.best {
        var x :| x in es && x.timeMs == t.best;
        assert x in es + [e] && x.timeMs == b;
      } else {
        assert e in es + [e] && e.timeMs == b;
      }
    }
  }

  lemma TotalsFirst(distance: int, r: ParticipantResult)
    ensures TotalsOf(Totals(r.finishTimeMs, 1, distance, Wins(r), r.avgPaceWatt), [EntryOf(distance, r)])
  {
    var e := EntryOf(distance, r);
    assert [e][..0] == [];
    assert e in [e];
  }

  lemma UpsertRecomputes(board: Board, es: seq<Entry>, distance: int, r: ParticipantResult)
    requires Recomputed(board, es)
    ensures Recomputed(Upsert(board, distance, r), es + [EntryOf(distance, r)])
  {
    var e := EntryOf(distance, r);
    var after := Upsert(board, distance, r);
    assert (es + [e])[..|es|] == es;
    forall u
      ensures (u in after <==> |Mine(es + [e], u)| > 0) && (u in after ==> TotalsOf(after[u], Mine(es + [e], u)))
    {
      if u == r.userId {
        if u in board {
          TotalsPush(board[u], Mine(es, u), distance, r);
        } else {
          TotalsFirst(distance, r);
          assert Mine(es + [e], u) == [e];
        }
      } else {
        assert Mine(es + [e], u) == Mine(es, u);
      }
    }
  }

  lemma {:induction false} UpsertAllRecomputes(board: Board, es: seq<Entry>, distance: int, rs: seq<ParticipantResult>)
    requires Recomputed(board, es)
    ensures Recomputed(UpsertAll(board, distance, rs), es + EntriesOf(distance, rs))
  {
    if |rs| == 0 {
      assert es + [] == es;
    } else {
      var before := rs[..|rs| - 1];
      UpsertAllRecomputes(board, es, distance, before);
      UpsertRecomputes(UpsertAll(board, distance, before), es + EntriesOf(distance, before), distance, rs[|rs| - 1]);
      assert es + EntriesOf(distance, rs) == es + EntriesOf(distance, before) + [EntryOf(distance, rs[|rs| - 1])];
    }
  }

  function BoardOf(h: seq<Commit>): Board {
    if |h| == 0 then map[] else UpsertAll(BoardOf(h[..|h| - 1]), h[|h| - 1].distance, h[|h| - 1].results)
  }

  lemma {:induction false} BoardIsRecomputed(h: seq<Commit>)
    ensures Recomputed(BoardOf(h), History(h))
  {
    if |h| > 0 {
      BoardIsRecomputed(h[..|h| - 1]);
      UpsertAllRecomputes(BoardOf(h[..|h| - 1]), History(h[..|h| - 1]), h[|h| - 1].distance, h[|h| - 1].results);
    }
  }

  // ------------------------------------------------------- committed or not

  datatype Attempt = Attempt(commit: Commit, now: int, fault: Fault)

  function Committed(attempts: seq<Attempt>): seq<Commit> {
    if |attempts| == 0 then []
    else
      var a := attempts[|attempts| - 1];
      Committed(attempts[..|attempts| - 1]) +
      (if Strikes(a.fault, |a.commit.results|) then [] else [a.commit])
  }

  lemma CommittedPush(attempts: seq<Attempt>, a: Attempt)
    ensures var h := Committed(attempts);
      BoardOf(Committed(attempts + [a])) ==
      if Strikes(a.fault, |a.commit.results|) then BoardOf(h)
      else UpsertAll(BoardOf(h), a.commit.distance, a.commit.results)
  {
    var h := Committed(attempts);
    assert (attempts + [a])[..|attempts|] == attempts;
    assert h + [] == h;
    assert (h + [a.commit])[..|h|] == h;
  }

  /** One more call. */
  method FinishOne(db: Database, ghost before: seq<Attempt>, a: Attempt)
    requires db.board == BoardOf(Committed(before))
    modifies db
    ensures db.board == BoardOf(Committed(before + [a]))
  {
    var ok := db.FinishRace(a.commit.raceId, a.commit.distance, a.commit.results, a.now, a.fault);
    CommittedPush(before, a);
  }

  /** Any series of calls, some failing anywhere: the board is that of the committed ones. */
  method FinishMany(db: Database, attempts: seq<Attempt>)
    requires db.board == map[]
    modifies db
    ensures db.board == BoardOf(Committed(attempts))
    ensures Recomputed(db.board, History(Committed(attempts)))
  {
    var k := 0;
    while k < |attempts|
      invariant k <= |attempts|
      invariant db.board == BoardOf(Committed(attempts[..k]))
    {
      FinishOne(db, attempts[..k], attempts[k]);
      assert attempts[..k + 1] == attempts[..k] + [attempts[k]];
      k := k + 1;
    }
    assert attempts[..k] == attempts;
    BoardIsRecomputed(Committed(attempts));
  }

  // ------------------------------------------------------ order is irrelevant

  lemma {:induction false} TotalWithout<T>(xs: seq<T>, i: nat, f: T -> int)
    requires i < |xs|
    ensures Total(xs, f) == Total(xs[..i] + xs[i + 1..], f) + f(xs[i])
  {
    var rest := xs[..i] + xs[i + 1..];
    if i == |xs| - 1 {
      assert rest == xs[..|xs| - 1];
    } else {
      TotalWithout(xs[..|xs| - 1], i, f);
      assert rest[..|rest| - 1] == xs[..|xs| - 1][..i] + xs[..|xs| - 1][i + 1..];
    }
  }

  lemma {:induction false} RealTotalWithout<T>(xs: seq<T>, i: nat, f: T -> real)
    requires i < |xs|
    ensures RealTotal(xs, f) == RealTotal(xs[..i] + xs[i + 1..], f) + f(xs[i])
  {
    var rest := xs[..i] + xs[i + 1..];
    if i == |xs| - 1 {
      assert rest == xs[..|xs| - 1];
    } else {
      RealTotalWithout(xs[..|xs| - 1], i, f);
      assert rest[..|rest| - 1] == xs[..|xs| - 1][..i] + xs[..|xs| - 1][i + 1..];
    }
  }

  lemma CutMultiset<T>(b: seq<T>, i: nat)
    requires i < |b|
    ensures multiset(b[..i] + b[i + 1..]) == multiset(b) - multiset{b[i]}
  {
    assert b == b[..i] + [b[i]] + b[i + 1..];
  }

  /** The last element of a occurs in b; taking both out leaves a rearrangement. */
  lemma TakeOut<T>(a: seq<T>, b: seq<T>) returns (i: nat)
    requires |a| > 0 && multiset(a) == multiset(b)
    ensures i < |b| && b[i] == a[|a| - 1]
    ensures multiset(a[..|a| - 1]) == multiset(b[..i] + b[i + 1..])
  {
    var x := a[|a| - 1];
    assert x in multiset(a);
    assert x in b;
    i :| 0 <= i < |b| && b[i] == x;
    CutMultiset(a, |a| - 1);
    CutMultiset(b, i);
    assert a[..|a| - 1] + a[|a|..] == a[..|a| - 1];
  }

  lemma {:induction false} TotalPermuted<T>(a: seq<T>, b: seq<T>, f: T -> int)
    requires multiset(a) == multiset(b)
    ensures Total(a, f) == Total(b, f)
  {
    assert |a| == |multiset(a)| == |multiset(b)| == |b|;
    if |a| > 0 {
      var i := TakeOut(a, b);
      TotalPermuted(a[..|a| - 1], b[..i] + b[i + 1..], f);
      TotalWithout(b, i, f);
    }
  }

  lemma {:induction false} RealTotalPermuted<T>(a: seq<T>, b: seq<T>, f: T -> real)
    requires multiset(a) == multiset(b)
    ensures RealTotal(a, f) == RealTotal(b, f)
  {
    assert |a| == |multiset(a)| == |multiset(b)| == |b|;
    if |a| > 0 {
      var i := TakeOut(a, b);
      RealTotalPermuted(a[..|a| - 1], b[..i] + b[i + 1..], f);
      RealTotalWithout(b, i, f);
    }
  }

  /** Totals depend on the results alone, not on their order. */
  lemma TotalsPermuted(s: Totals, t: Totals, a: seq<Entry>, b: seq<Entry>)
    requires TotalsOf(s, a) && TotalsOf(t, b) && multiset(a) == multiset(b)
    ensures s == t
  {
    assert |a| == |multiset(a)| == |multiset(b)| == |b|;
    TotalPermuted(a, b, WINS);
    TotalPermuted(a, b, DISTANCE);
    RealTotalPermuted(a, b, PACE);
    assert forall e :: e in a <==> e in multiset(a);
    assert forall e :: e in b <==> e in multiset(b);
    assert forall e :: e in a <==> e in b;
  }

  lemma {:induction false} MineCount(es: seq<Entry>, u: UserId, e: Entry)
    ensures multiset(Mine(es, u))[e] == if e.user == u then multiset(es)[e] else 0
  {
    if |es| > 0 {
      MineCount(es[..|es| - 1], u, e);
      assert es == es[..|es| - 1] + [es[|es| - 1]];
    }
  }

  ghost function Occurrences(e: Entry): Commit -> int {
    (c: Commit) => multiset(EntriesOf(c.distance, c.results))[e]
  }

  lemma {:induction false} HistoryCount(h: seq<Commit>, e: Entry)
    ensures multiset(History(h))[e] == Total(h, Occurrences(e))
  {
    if |h| > 0 {
      HistoryCount(h[..|h| - 1], e);
    }
  }

  lemma SameMine(g: seq<Commit>, h: seq<Commit>, u: UserId)
    requires multiset(g) == multiset(h)
    ensures multiset(Mine(History(g), u)) == multiset(Mine(History(h), u))
  {
    var a, b := Mine(History(g), u), Mine(History(h), u);
    forall e: Entry ensures multiset(a)[e] == multiset(b)[e] {
      MineCount(History(g), u, e);
      MineCount(History(h), u, e);
      HistoryCount(g, e);
      HistoryCount(h, e);
      TotalPermuted(g, h, Occurrences(e));
    }
  }

  /** The same races committed in any order give the same leaderboard. */
  lemma OrderIsIrrelevant(g: seq<Commit>, h: seq<Commit>)
    requires multiset(g) == multiset(h)
    ensures BoardOf(g) == BoardOf(h)
  {
    BoardIsRecomputed(g);
    BoardIsRecomputed(h);
    forall u
      ensures u in BoardOf(g) <==> u in BoardOf(h)
      ensures u in BoardOf(g) && u in BoardOf(h) ==> BoardOf(g)[u] == BoardOf(h)[u]
    {
      var a, b := Mine(History(g), u), Mine(History(h), u);
      SameMine(g, h, u);
      assert |a| == |multiset(a)| == |multiset(b)| == |b|;
      if u in BoardOf(g) {
        TotalsPermuted(BoardOf(g)[u], BoardOf(h)[u], a, b);
      }
    }
  }

  // --------------------------------------------------------- one win per race

  const WINS_OF: Totals -> int := (t: Totals) => t.wins
  const WON: ParticipantResult -> int := (r: ParticipantResult) => Wins(r)

  lemma UpsertWins(board: Board, distance: int, r: ParticipantResult)
    ensures Sum(Upsert(board, distance, r), WINS_OF) == Sum(board, WINS_OF) + Wins(r)
  {
    SumPut(board, WINS_OF, r.userId, Upsert(board, distance, r)[r.userId]);
    if r.userId !in board {
      assert board - {r.userId} == board;
    }
  }

  /** Wins are neither lost nor made up: the board gains exactly the race's winners. */
  lemma {:induction false} WinsConserved(board: Board, distance: int, rs: seq<ParticipantResult>)
    ensures Sum(UpsertAll(board, distance, rs), WINS_OF) == Sum(board, WINS_OF) + Total(rs, WON)
  {
    if |rs| > 0 {
      WinsConserved(board, distance, rs[..|rs| - 1]);
      UpsertWins(UpsertAll(board, distance, rs[..|rs| - 1]), distance, rs[|rs| - 1]);
    }
  }

  lemma {:induction false} OneWinnerCount(rs: seq<ParticipantResult>)
    requires forall j, k :: 0 <= j < k < |rs| ==> !(Won(rs[j]) && Won(rs[k]))
    ensures 0 <= Total(rs, WON) <= 1
    ensures Total(rs, WON) == 1 <==> exists k :: 0 <= k < |rs| && Won(rs[k])
  {
    if |rs| > 0 {
      var before := rs[..|rs| - 1];
      assert forall k :: 0 <= k < |before| ==> before[k] == rs[k];
      OneWinnerCount(before);
      if Total(before, WON) == 1 {
        var k :| 0 <= k < |before| && Won(before[k]);
        assert Won(rs[k]);
      }
    }
  }

  /** Some run of a room hands this list over, as its k-th effect. */
  ghost predicate HandedOver(rs: seq<ParticipantResult>, target: int, startedAt: int, ins: seq<Input>, k: nat) {
    && HonestRun(Opened(target, startedAt), ins)
    && k < |Run(Opened(target, startedAt), ins).trace|
    && Run(Opened(target, startedAt), ins).trace[k].FinishCall?
    && Run(Opened(target, startedAt), ins).trace[k].results == rs
  }

  ghost predicate FromARoom(rs: seq<ParticipantResult>) {
    exists target, startedAt, ins, k: nat :: HandedOver(rs, target, startedAt, ins, k)
  }

  lemma HandedOverFair(target: int, startedAt: int, ins: seq<Input>, k: nat)
    requires HonestRun(Opened(target, startedAt), ins)
    requires k < |Run(Opened(target, startedAt), ins).trace|
    requires Run(Opened(target, startedAt), ins).trace[k].FinishCall?
    ensures exists m: nat :: FairlyRanked(Run(Opened(target, startedAt), ins).trace[k].results, m)
  {
    var r := Run(Opened(target, startedAt), ins);
    EveryFinishFair(target, startedAt, ins);
    assert FairFinish(r.trace[k], r.people.total);
  }

  predicate HasWinner(rs: seq<ParticipantResult>) {
    exists j :: 0 <= j < |rs| && Won(rs[j])
  }

  /** Whatever room a list of results comes from, all users' wins together grow by at
      most one, and by one exactly when somebody in it won. */
  lemma OneWinPerRace(rs: seq<ParticipantResult>, board: Board, distance: int)
    requires FromARoom(rs)
    ensures Sum(UpsertAll(board, distance, rs), WINS_OF) == Sum(board, WINS_OF) + if HasWinner(rs) then 1 else 0
  {
    var target, startedAt, ins, k: nat :| HandedOver(rs, target, startedAt, ins, k);
    HandedOverFair(target, startedAt, ins, k);
    OneWinnerCount(rs);
    WinsConserved(board, distance, rs);
  }

  /** Races that had a winner. */
  function Decided(h: seq<Commit>): nat {
    if |h| == 0 then 0 else Decided(h[..|h| - 1]) + if HasWinner(h[|h| - 1].results) then 1 else 0
  }

  ghost predicate AllFromRooms(attempts: seq<Attempt>) {
    |attempts| == 0 ||
    (AllFromRooms(attempts[..|attempts| - 1]) && FromARoom(attempts[|attempts| - 1].commit.results))
  }

  /** If every list handed over comes from some room, then after any series of calls,
      some failing anywhere, all wins on the board are as many as the committed races
      that had a winner, and so no more than the committed races. */
  lemma {:induction false} WinsAreRacesWon(attempts: seq<Attempt>)
    requires AllFromRooms(attempts)
    ensures WinsMatch(Committed(attempts))
  {
    if |attempts| == 0 {
      assert Committed(attempts) == [] && BoardOf([]) == map[];
    } else {
      var before, a := attempts[..|attempts| - 1], attempts[|attempts| - 1];
      WinsAreRacesWon(before);
      OneMoreRace(before, a);
      assert before + [a] == attempts;
    }
  }

  /** Every win on the board is the win of a race of its own. */
  ghost predicate WinsMatch(h: seq<Commit>) {
    Sum(BoardOf(h), WINS_OF) == Decided(h) <= |h|
  }

  lemma OneMoreRace(before: seq<Attempt>, a: Attempt)
    requires WinsMatch(Committed(before)) && FromARoom(a.commit.results)
    ensures WinsMatch(Committed(before + [a]))
  {
    var h := Committed(before);
    assert (before + [a])[..|before|] == before;
    if Strikes(a.fault, |a.commit.results|) {
      assert h + [] == h;
    } else {
      DecidedPush(h, a.commit);
      OneWinPerRace(a.commit.results, BoardOf(h), a.commit.distance);
      assert (h + [a.commit])[..|h|] == h;
    }
  }

  lemma DecidedPush(h: seq<Commit>, c: Commit)
    ensures Decided(h + [c]) == Decided(h) + if HasWinner(c.results) then 1 else 0
  {
    assert (h + [c])[..|h|] == h;
  }
}
