/** The room actor in the program's own form: an object whose maps, counters and
    flags are updated in place, one event at a time.  Every method is proved to
    change the whole state exactly as RoomModel says. */
module Actor {
  import opened Collections
  import opened Options
  import opened RoomModel
  import opened Shared

  ghost predicate Filed(m: map<UserId, Participant>) {
    forall u :: u in m ==> m[u].userId == u
  }

  /** The room went from s to r on this event, with a choice map iteration can make. */
  ghost predicate Applied(s: Room, ev: Event, env: Env, choice: Choice, r: Room) {
    var i := Input(ev, env, choice);
    r == Step(s, i) && ChoiceOk(s, i)
  }

  lemma OrderedInsert(rows: seq<Row>, live: map<UserId, Participant>, users: set<UserId>, u: UserId, at: nat)
    requires Ordered(rows, live, users) && u in live && u !in users && at <= |rows|
    requires forall k :: 0 <= k < at ==> rows[k].distance >= live[u].wordsCorrect
    requires forall k :: at <= k < |rows| ==> rows[k].distance <= live[u].wordsCorrect
    ensures Ordered(rows[..at] + [Row(u, live[u].wordsCorrect, 0)] + rows[at..], live, users + {u})
  {
    var row := Row(u, live[u].wordsCorrect, 0);
    var r := rows[..at] + [row] + rows[at..];
    InsertedUsers(rows, row, at);
    InsertedPairs(rows, row, at);
    assert forall k :: 0 <= k < |r| && k != at ==> r[k] == rows[if k < at then k else k - 1];
  }

  lemma InsertedPairs(rows: seq<Row>, row: Row, at: nat)
    requires at <= |rows| && row.userId !in RowUsers(rows)
    requires forall j, k :: 0 <= j < k < |rows| ==>
      rows[j].userId != rows[k].userId && rows[j].distance >= rows[k].distance
    requires forall k :: 0 <= k < at ==> rows[k].distance >= row.distance
    requires forall k :: at <= k < |rows| ==> rows[k].distance <= row.distance
    ensures var r := rows[..at] + [row] + rows[at..];
      forall j, k :: 0 <= j < k < |r| ==> r[j].userId != r[k].userId && r[j].distance >= r[k].distance
  {
    var r := rows[..at] + [row] + rows[at..];
    forall j, k | 0 <= j < k < |r|
      ensures r[j].userId != r[k].userId && r[j].distance >= r[k].distance
    {
      if j == at {
        assert r[k] == rows[k - 1] && rows[k - 1] in rows;
      } else if k == at {
        assert r[j] == rows[j] && rows[j] in rows;
      } else {
        assert r[j] == rows[if j < at then j else j - 1] && r[k] == rows[if k < at then k else k - 1];
      }
    }
  }

  lemma InsertedUsers(rows: seq<Row>, row: Row, at: nat)
    requires at <= |rows|
    ensures RowUsers(rows[..at] + [row] + rows[at..]) == RowUsers(rows) + {row.userId}
  {
    assert rows == rows[..at] + rows[at..];
    assert forall x :: x in rows[..at] + [row] + rows[at..] <==> x in rows || x == row;
  }

  lemma OrderedNumber(ranked: seq<Row>, rows: seq<Row>, live: map<UserId, Participant>)
    requires Ordered(ranked, live, live.Keys) && |rows| == |ranked|
    requires forall k :: 0 <= k < |rows| ==> rows[k] == ranked[k].(rank := k + 1)
    ensures RankingOf(rows, live)
  {
    forall u | u in live ensures u in RowUsers(rows) {
      var r :| r in ranked && r.userId == u;
      var k :| 0 <= k < |ranked| && ranked[k] == r;
      assert rows[k] in rows;
    }
  }

  lemma ListedAppend(rs: seq<ParticipantResult>, m: map<UserId, Participant>, users: set<UserId>, u: UserId,
                     total: nat, startedAt: int)
    requires Listed(rs, m, users, total, startedAt) && u in m && u !in users && m[u].userId == u
    ensures Listed(rs + [BuildResult(m[u], total, startedAt)], m, users + {u}, total, startedAt)
  {
    var r := BuildResult(m[u], total, startedAt);
    assert forall k :: 0 <= k < |rs| ==> rs[k].userId in ResultUsers(rs);
    assert forall x :: x in rs + [r] <==> x in rs || x == r;
    assert ResultUsers(rs + [r]) == users + {u};
  }

  /** Telemetry's progress noted and published. */
  function Noted(s: Room, i: Input): Room
    requires i.ev.Telemetry? && i.ev.user in s.people.live
  {
    var u := i.ev.user;
    var moved := Moved(s.people.live[u], i.ev.seqNo, i.ev.words, i.ev.pace);
    Emit(s.(people := s.people.(live := s.people.live[u := moved])),
         PublishSample(u, i.env.now, i.ev.words, i.ev.pace, i.env.publishOk))
  }

  /** The next rank given to u. */
  function Crossed(s: Room, u: UserId, now: int): Room
    requires u in s.people.live
  {
    var f := s.people;
    s.(people := f.(live := f.live[u := Placed(f.live[u], f.finishedCount + 1, now)],
                    finishedCount := f.finishedCount + 1))
  }

  lemma CrossedNoted(s: Room, i: Input)
    requires i.ev.Telemetry? && Crosses(s.people, s.target, i.ev.user, i.ev.seqNo, i.ev.words)
    ensures Crossed(Noted(s, i), i.ev.user, i.env.now) ==
      Noted(s, i).(people := Advance(s.people, s.target, i))
  {
    var moved := Moved(s.people.live[i.ev.user], i.ev.seqNo, i.ev.words, i.ev.pace);
    PutTwice(s.people.live, i.ev.user, moved, Placed(moved, s.people.finishedCount + 1, i.env.now));
  }

  lemma CrossingTurn(s: Room, i: Input, mid: Room)
    requires i.ev.Telemetry? && Crosses(s.people, s.target, i.ev.user, i.ev.seqNo, i.ev.words)
    requires mid == Noted(s, i)
    requires var told := Crossed(mid, i.ev.user, i.env.now); Finishing(told) ==> Suits(told, i.choice)
    ensures Step(s, i) == Check(Crossed(mid, i.ev.user, i.env.now), i.env, i.choice) && ChoiceOk(s, i)
  {
    CrossedNoted(s, i);
    CheckedTurn(s, Crossed(mid, i.ev.user, i.env.now), i);
  }

  lemma PlainTurn(s: Room, i: Input, mid: Room)
    requires i.ev.Telemetry? && Accepts(s.people, i.ev.user, i.ev.seqNo)
    requires !Crosses(s.people, s.target, i.ev.user, i.ev.seqNo, i.ev.words)
    requires mid == Noted(s, i)
    ensures Step(s, i) == mid && ChoiceOk(s, i)
  {
  }

  /** Whatever a finish check emits is what its choice allows. */
  lemma CheckGenuine(s: Room, env: Env, ch: Choice)
    requires Finishing(s) ==> Suits(s, ch)
    ensures var c := Check(s, env, ch);
      c.people == s.people && c.startedAt == s.startedAt && |c.trace| >= |s.trace| && c.trace[..|s.trace|] == s.trace &&
      forall k :: |s.trace| <= k < |c.trace| ==> Genuine(c.trace[k], c)
  {
  }

  /** A turn that tells one collaborator something and then runs the finish check. */
  lemma CheckedTurn(s: Room, told: Room, i: Input)
    requires Step(s, i) == Check(told, i.env, i.choice)
    requires |told.trace| == |s.trace| + 1 && told.trace[..|s.trace|] == s.trace
    requires var e := told.trace[|s.trace|]; e.LeaveCall? || e.MarkEvicted? || e.PublishSample?
    requires Finishing(told) ==> Suits(told, i.choice)
    ensures ChoiceOk(s, i)
  {
    var r := Check(told, i.env, i.choice);
    CheckGenuine(told, i.env, i.choice);
    forall k | |s.trace| <= k < |r.trace| ensures Genuine(r.trace[k], r) {
      if k == |s.trace| {
        assert r.trace[k] == r.trace[..|told.trace|][k];
      }
    }
  }

  class RoomActor {
    const distanceMeters: int
    const startedAt: int
    var participants: map<UserId, Participant>
    var evicted: set<UserId>
    var departedParticipants: map<UserId, Participant>
    var totalParticipants: nat
    var active: bool
    var tickCount: nat
    var finished: bool
    var finishedCount: nat
    var cancelled: bool
    ghost var trace: seq<Effect>

    /** Records are filed under their own user. */
    ghost predicate Valid()
      reads this
    {
      Filed(participants) && Filed(departedParticipants)
    }

    ghost function Folk(): People
      reads this
    {
      People(participants, departedParticipants, evicted, totalParticipants, finishedCount, active)
    }

    ghost function Value(): Room
      reads this
    {
      Room(Folk(), distanceMeters, startedAt, tickCount, finished, cancelled, trace)
    }

    constructor (distanceMeters: int, startedAt: int)
      ensures Valid() && Value() == Opened(distanceMeters, startedAt)
    {
      this.distanceMeters := distanceMeters;
      this.startedAt := startedAt;
      participants, departedParticipants, evicted := map[], map[], {};
      totalParticipants, finishedCount, tickCount := 0, 0, 0;
      active, finished, cancelled := false, false, false;
      trace := [];
    }

    /** The live participants, most words first, ties in iteration order. */
    method RankedRows() returns (rows: seq<Row>)
      ensures RankingOf(rows, participants)
    {
      var ranked: seq<Row> := [];
      var todo := participants.Keys;
      while todo != {}
        invariant todo <= participants.Keys
        invariant Ordered(ranked, participants, participants.Keys - todo)
      {
        var u :| u in todo;
        var words := participants[u].wordsCorrect;
        var at := StablePlace(ranked, words);
        OrderedInsert(ranked, participants, participants.Keys - todo, u, at);
        ranked := ranked[..at] + [Row(u, words, 0)] + ranked[at..];
        assert participants.Keys - (todo - {u}) == participants.Keys - todo + {u};
        todo := todo - {u};
      }
      rows := seq(|ranked|, k requires 0 <= k < |ranked| => ranked[k].(rank := k + 1));
      OrderedNumber(ranked, rows, participants);
    }

    /** A stable sort puts a row behind every row with at least as many words. */
    static method StablePlace(rows: seq<Row>, words: int) returns (at: nat)
      requires forall j, k :: 0 <= j < k < |rows| ==> rows[j].distance >= rows[k].distance
      ensures at <= |rows|
      ensures forall k :: 0 <= k < at ==> rows[k].distance >= words
      ensures forall k :: at <= k < |rows| ==> rows[k].distance < words
    {
      at := |rows|;
      while at > 0 && rows[at - 1].distance < words
        invariant at <= |rows|
        invariant forall k :: at <= k < |rows| ==> rows[k].distance < words
      {
        at := at - 1;
      }
    }

    method BroadcastSnapshot(env: Env, ghost results: seq<ParticipantResult>) returns (ghost choice: Choice)
      modifies this`tickCount, this`trace
      ensures choice.results == results && RankingOf(choice.rows, participants)
      ensures Value() == Snapshot(old(Value()), env, choice)
    {
      var rows := RankedRows();
      tickCount := tickCount + 1;
      trace := trace + [Broadcast(RaceState(tickCount, rows), env.snapshotFits)];
      choice := Choice(rows, results);
    }

    method BuildParticipantResult(p: Participant) returns (r: ParticipantResult)
      ensures r == BuildResult(p, totalParticipants, startedAt)
    {
      var rank := p.finishRank;
      if rank == None {
        rank := Some(totalParticipants);
      }
      var finishTimeMs: Option<int> := None;
      if p.finishedAt.Some? {
        finishTimeMs := Some(Millis(p.finishedAt.value - startedAt));
      }
      r := ParticipantResult(p.userId, rank, finishTimeMs, p.paceWatt, p.disconnectedCount);
    }

    method BuildResults(m: map<UserId, Participant>) returns (rs: seq<ParticipantResult>)
      requires Filed(m)
      ensures Lists(rs, m, totalParticipants, startedAt)
    {
      rs := [];
      var todo := m.Keys;
      while todo != {}
        invariant todo <= m.Keys
        invariant Listed(rs, m, m.Keys - todo, totalParticipants, startedAt)
      {
        var u :| u in todo;
        var r := BuildParticipantResult(m[u]);
        ListedAppend(rs, m, m.Keys - todo, u, totalParticipants, startedAt);
        rs := rs + [r];
        assert m.Keys - (todo - {u}) == m.Keys - todo + {u};
        todo := todo - {u};
      }
    }

    /** Results of the live participants, then of the departed ones. */
    method AllResults() returns (results: seq<ParticipantResult>)
      requires Valid()
      ensures ListingOf(results, Folk(), startedAt)
    {
      results := BuildResults(participants);
      ghost var live := results;
      var gone := BuildResults(departedParticipants);
      results := results + gone;
      assert results[..|live|] == live && results[|live|..] == gone;
      assert ListsUpTo(|live|, results, Folk(), startedAt);
    }

    method ExpirePendingRoom(env: Env)
      modifies this`finished, this`cancelled, this`trace
      ensures Value() == Expire(old(Value()), env)
    {
      trace := trace + [CancelCall(env.persistOk)];
      if !env.persistOk {
        return;
      }
      trace := trace + [Broadcast(RaceExpired, env.noticeFits)];
      finished := true;
      cancelled := true;
    }

    method FinishRace(env: Env, results: seq<ParticipantResult>) returns (ghost choice: Choice)
      modifies this`tickCount, this`finished, this`cancelled, this`trace
      ensures choice.results == results && RankingOf(choice.rows, participants)
      ensures Value() == Finish(old(Value()), env, choice)
    {
      choice := BroadcastSnapshot(env, results);
      trace := trace + [FinishCall(results, env.persistOk)];
      if !env.persistOk {
        return;
      }
      finished := true;
      trace := trace + [PublishFinished(results, env.publishOk)];
      var body := RaceFinished(ToJson(results));
      trace := trace + [Broadcast(body, env.noticeFits)];
      cancelled := true;
    }

    method SomeoneStillRacing() returns (racing: bool)
      ensures racing <==> Unranked(participants) != {}
    {
      var todo := participants.Keys;
      while todo != {}
        invariant todo <= participants.Keys
        invariant forall u :: u in participants.Keys - todo ==> participants[u].finishRank.Some?
      {
        var u :| u in todo;
        if participants[u].finishRank == None {
          assert u in Unranked(participants);
          return true;
        }
        todo := todo - {u};
      }
      return false;
    }

    method CheckRaceFinished(env: Env) returns (ghost choice: Choice)
      requires Valid()
      modifies this`tickCount, this`finished, this`cancelled, this`trace
      ensures Value() == Check(old(Value()), env, choice)
      ensures Finishing(old(Value())) ==> Suits(old(Value()), choice)
    {
      choice := Choice([], []);
      if finished {
        return;
      }
      var racing := SomeoneStillRacing();
      if racing {
        return;
      }
      if !active {
        ExpirePendingRoom(env);
        return;
      }
      var results := AllResults();
      choice := FinishRace(env, results);
    }

    /** departParticipant: out of the race for good, with a result still to come. */
    method DepartParticipant(u: UserId, env: Env) returns (ghost choice: Choice)
      requires Valid() && u in participants
      modifies this
      ensures Valid()
      ensures var told := Emit(old(Value()).(people := Depart(old(Folk()), u)), MarkEvicted(u, env.markOk));
        Value() == Check(told, env, choice) && (Finishing(told) ==> Suits(told, choice))
    {
      var p := participants[u];
      participants := participants - {u};
      departedParticipants := departedParticipants[u := p];
      evicted := evicted + {u};
      trace := trace + [MarkEvicted(u, env.markOk)];
      choice := CheckRaceFinished(env);
    }

    method ApplyJoined(u: UserId, name: string, env: Env) returns (ghost choice: Choice)
      requires Valid()
      modifies this
      ensures Valid() && Applied(old(Value()), Joined(u, name), env, choice, Value())
    {
      TakeSeat(u, name, env.now);
      choice := BroadcastSnapshot(env, []);
    }

    /** A reconnect, or a new seat. */
    method TakeSeat(u: UserId, name: string, now: int)
      requires Valid()
      modifies this`participants, this`totalParticipants
      ensures Valid() && Folk() == Seat(old(Folk()), u, name, now)
    {
      if u in participants {
        var existing := participants[u];
        if existing.disconnectedAt.Some? {
          if existing.graceTimer {
            existing := existing.(graceTimer := false);
          }
          existing := existing.(disconnectedAt := None);
          participants := participants[u := existing];
        }
      } else {
        participants := participants[u := Participant(u, name, 0, 0, 0.0, now, None, 0, false, None, None)];
        totalParticipants := totalParticipants + 1;
      }
    }

    method ApplyTelemetry(u: UserId, seqNo: int, words: int, pace: real, env: Env) returns (ghost choice: Choice)
      requires Valid()
      modifies this
      ensures Valid() && Applied(old(Value()), Telemetry(u, seqNo, words, pace), env, choice, Value())
    {
      choice := Choice([], []);
      if !active {
        return;
      }
      if u !in participants || seqNo <= participants[u].lastSeq {
        return;
      }
      ghost var s := Value();
      RecordProgress(u, seqNo, words, pace, env);
      ghost var mid := Value();
      if participants[u].finishRank == None && participants[u].wordsCorrect >= distanceMeters {
        choice := CrossLine(u, env);
        CrossingTurn(s, Input(Telemetry(u, seqNo, words, pace), env, choice), mid);
      } else {
        PlainTurn(s, Input(Telemetry(u, seqNo, words, pace), env, choice), mid);
      }
    }

    method RecordProgress(u: UserId, seqNo: int, words: int, pace: real, env: Env)
      requires u in participants
      modifies this`participants, this`trace
      ensures participants == old(participants)[u := Moved(old(participants)[u], seqNo, words, pace)]
      ensures trace == old(trace) + [PublishSample(u, env.now, words, pace, env.publishOk)]
    {
      var p := participants[u].(wordsCorrect := words, lastSeq := seqNo, paceWatt := pace);
      participants := participants[u := p];
      trace := trace + [PublishSample(u, env.now, p.wordsCorrect, p.paceWatt, env.publishOk)];
    }

    /** The next rank goes to u, now; perhaps that was the last one. */
    method CrossLine(u: UserId, env: Env) returns (ghost choice: Choice)
      requires Valid() && u in participants
      modifies this
      ensures Valid()
      ensures var told := Crossed(old(Value()), u, env.now);
        Value() == Check(told, env, choice) && (Finishing(told) ==> Suits(told, choice))
    {
      Place(u, env.now);
      choice := CheckRaceFinished(env);
    }

    method Place(u: UserId, now: int)
      requires Valid() && u in participants
      modifies this`participants, this`finishedCount
      ensures Valid() && Value() == Crossed(old(Value()), u, now)
    {
      var p := participants[u].(finishedAt := Some(now));
      finishedCount := finishedCount + 1;
      participants := participants[u := p.(finishRank := Some(finishedCount))];
    }

    method ApplyDisconnected(u: UserId, env: Env) returns (ghost choice: Choice)
      requires Valid()
      modifies this`participants
      ensures Valid() && Applied(old(Value()), Disconnected(u), env, choice, Value())
    {
      choice := Choice([], []);
      if u !in participants {
        return;
      }
      var p := participants[u].(disconnectedAt := Some(env.now),
                                disconnectedCount := participants[u].disconnectedCount + 1);
      if p.graceTimer {
        p := p.(graceTimer := false);
      }
      p := p.(graceTimer := true);
      participants := participants[u := p];
    }

    method ApplyEvicted(u: UserId, env: Env) returns (ghost choice: Choice)
      requires Valid()
      modifies this
      ensures Valid() && Applied(old(Value()), Evicted(u), env, choice, Value())
    {
      choice := Choice([], []);
      if u in participants && participants[u].disconnectedAt.Some? {
        ghost var told := Emit(Value().(people := Depart(Folk(), u)), MarkEvicted(u, env.markOk));
        choice := DepartParticipant(u, env);
        CheckedTurn(old(Value()), told, Input(Evicted(u), env, choice));
      }
    }

    method ApplyLeft(u: UserId, env: Env) returns (ghost choice: Choice)
      requires Valid()
      modifies this
      ensures Valid() && Applied(old(Value()), Left(u), env, choice, Value())
    {
      choice := Choice([], []);
      if u !in participants {
        return;
      }
      if active {
        ghost var told := Emit(Value().(people := Depart(Folk(), u)), MarkEvicted(u, env.markOk));
        choice := DepartParticipant(u, env);
        CheckedTurn(old(Value()), told, Input(Left(u), env, choice));
      } else {
        choice := WithdrawPending(u, env);
      }
    }

    /** Leaving before the start: removed outright, free to join again. */
    method WithdrawPending(u: UserId, env: Env) returns (ghost choice: Choice)
      requires Valid() && u in participants && !active
      modifies this
      ensures Valid() && Applied(old(Value()), Left(u), env, choice, Value())
    {
      participants := participants - {u};
      trace := trace + [LeaveCall(u, env.leaveOk)];
      ghost var told := Value();
      choice := CheckRaceFinished(env);
      CheckedTurn(old(Value()), told, Input(Left(u), env, choice));
    }

    /** One event of the inbox, or one tick, in one atomic turn of the actor's loop. */
    method ApplyEvent(ev: Event, env: Env) returns (ghost choice: Choice)
      requires Valid()
      modifies this
      ensures Valid() && Applied(old(Value()), ev, env, choice, Value())
    {
      choice := Choice([], []);
      match ev
      case Joined(u, name) => choice := ApplyJoined(u, name, env);
      case Telemetry(u, seqNo, words, pace) => choice := ApplyTelemetry(u, seqNo, words, pace, env);
      case Disconnected(u) => choice := ApplyDisconnected(u, env);
      case Evicted(u) => choice := ApplyEvicted(u, env);
      case Left(u) => choice := ApplyLeft(u, env);
      case EvictionQuery(u) =>
        trace := trace + [Reply(u, u in evicted, env.replyFits)];
      case NoShowTimeout =>
        choice := CheckRaceFinished(env);
        CheckGenuine(old(Value()), env, choice);
      case Activated(promptText) =>
        active := true;
        trace := trace + [Broadcast(RaceStarted(promptText), env.noticeFits)];
      case PendingExpired =>
        if active || finished {
          return;
        }
        ExpirePendingRoom(env);
      case Tick => choice := BroadcastSnapshot(env, []);
    }

    /** The actor's loop over whatever its select picks before it picks ctx.Done. */
    method Loop(picked: seq<(Event, Env)>) returns (ghost ins: seq<Input>)
      requires Valid()
      modifies this
      ensures Valid() && |ins| == |picked|
      ensures forall k :: 0 <= k < |picked| ==> ins[k].ev == picked[k].0 && ins[k].env == picked[k].1
      ensures Value() == Run(old(Value()), ins) && HonestRun(old(Value()), ins)
    {
      ins := [];
      var n := 0;
      while n < |picked|
        invariant Valid() && n <= |picked| && |ins| == n
        invariant forall k :: 0 <= k < n ==> ins[k].ev == picked[k].0 && ins[k].env == picked[k].1
        invariant Value() == Run(old(Value()), ins) && HonestRun(old(Value()), ins)
      {
        ghost var choice := ApplyEvent(picked[n].0, picked[n].1);
        ghost var i := Input(picked[n].0, picked[n].1, choice);
        assert (ins + [i])[..n] == ins;
        ins := ins + [i];
        n := n + 1;
      }
    }
  }
}
