/** How a room ends: at most one terminal write, notices only after it, no room
    left behind, and a measure that brings every race to its end. */
module RoomLifecycle {
  import opened RoomModel
  import opened RoomRanks

  // -------------------------------------------------------- terminal writes

  /** A successful terminal write. */
  predicate Settles(e: Effect) {
    (e.FinishCall? && e.ok) || (e.CancelCall? && e.ok)
  }

  predicate IsNotice(e: Effect) {
    e.Broadcast? && (e.frame.RaceFinished? || e.frame.RaceExpired?)
  }

  /** e is the write that the notice n reports, with exactly the persisted results. */
  predicate Reports(n: Effect, e: Effect) {
    IsNotice(n) && Settles(e) &&
    (if n.frame.RaceFinished? then e.FinishCall? && n.frame.results == ToJson(e.results) else e.CancelCall?)
  }

  ghost predicate PersistInv(s: Room) {
    && (forall j, k :: 0 <= j < k < |s.trace| ==> !(Settles(s.trace[j]) && Settles(s.trace[k])))
    && (s.finished <==> exists k :: 0 <= k < |s.trace| && Settles(s.trace[k]))
    && s.cancelled == s.finished
    && (forall k :: 0 <= k < |s.trace| && IsNotice(s.trace[k]) ==>
          exists j :: 0 <= j < k && Reports(s.trace[k], s.trace[j]))
  }

  predicate Ordinary(e: Effect) {
    !Settles(e) && !IsNotice(e)
  }

  lemma EmitKeeps(s: Room, e: Effect)
    requires PersistInv(s) && Ordinary(e)
    ensures PersistInv(Emit(s, e))
  {
    var r := Emit(s, e);
    assert forall k :: 0 <= k < |s.trace| ==> r.trace[k] == s.trace[k];
    forall k | 0 <= k < |r.trace| && IsNotice(r.trace[k])
      ensures exists j :: 0 <= j < k && Reports(r.trace[k], r.trace[j])
    {
      var j :| 0 <= j < k && Reports(s.trace[k], s.trace[j]);
      assert Reports(r.trace[k], r.trace[j]);
    }
  }

  /** The one write that ends the room. */
  lemma SettleKeeps(s: Room, e: Effect)
    requires PersistInv(s) && Settles(e) && !s.finished
    ensures PersistInv(Emit(s, e).(finished := true, cancelled := true))
  {
    var r := Emit(s, e);
    assert forall k :: 0 <= k < |s.trace| ==> r.trace[k] == s.trace[k];
    assert Settles(r.trace[|s.trace|]);
  }

  lemma NoticeKeeps(s: Room, n: Effect, j: nat)
    requires PersistInv(s) && j < |s.trace| && Reports(n, s.trace[j])
    ensures PersistInv(Emit(s, n))
  {
    var r := Emit(s, n);
    assert forall k :: 0 <= k < |s.trace| ==> r.trace[k] == s.trace[k];
    forall k | 0 <= k < |r.trace| && IsNotice(r.trace[k])
      ensures exists j :: 0 <= j < k && Reports(r.trace[k], r.trace[j])
    {
      if k < |s.trace| {
        var j :| 0 <= j < k && Reports(s.trace[k], s.trace[j]);
        assert Reports(r.trace[k], r.trace[j]);
      } else {
        assert Reports(r.trace[k], r.trace[j]);
      }
    }
  }

  lemma SnapshotKeeps(s: Room, env: Env, ch: Choice)
    requires PersistInv(s)
    ensures PersistInv(Snapshot(s, env, ch))
  {
    EmitKeeps(s.(ticks := s.ticks + 1), Broadcast(RaceState(s.ticks + 1, ch.rows), env.snapshotFits));
  }

  lemma ExpireKeeps(s: Room, env: Env)
    requires PersistInv(s) && !s.finished
    ensures PersistInv(Expire(s, env)) && Expire(s, env).finished == env.persistOk
  {
    var e := CancelCall(env.persistOk);
    if env.persistOk {
      SettleKeeps(s, e);
      var t := Emit(s, e).(finished := true, cancelled := true);
      NoticeKeeps(t, Broadcast(RaceExpired, env.noticeFits), |s.trace|);
    } else {
      EmitKeeps(s, e);
    }
  }

  lemma FinishKeeps(s: Room, env: Env, ch: Choice)
    requires PersistInv(s) && !s.finished
    ensures PersistInv(Finish(s, env, ch)) && Finish(s, env, ch).finished == env.persistOk
  {
    var shown := Snapshot(s, env, ch);
    SnapshotKeeps(s, env, ch);
    var e := FinishCall(ch.results, env.persistOk);
    if env.persistOk {
      SettleKeeps(shown, e);
      var t := Emit(shown, e).(finished := true, cancelled := true);
      EmitKeeps(t, PublishFinished(ch.results, env.publishOk));
      var u := Emit(t, PublishFinished(ch.results, env.publishOk));
      assert u.trace[|shown.trace|] == e;
      NoticeKeeps(u, Broadcast(RaceFinished(ToJson(ch.results)), env.noticeFits), |shown.trace|);
    } else {
      EmitKeeps(shown, e);
    }
  }

  lemma CheckKeeps(s: Room, env: Env, ch: Choice)
    requires PersistInv(s)
    ensures PersistInv(Check(s, env, ch))
    ensures Unranked(s.people.live) == {} && env.persistOk ==> Check(s, env, ch).finished
    ensures s.finished ==> Check(s, env, ch).finished
  {
    if !s.finished && Unranked(s.people.live) == {} {
      if s.people.active { FinishKeeps(s, env, ch); } else { ExpireKeeps(s, env); }
    }
  }

  /** The room at the moment a leaving or scoring event reaches the finish check. */
  function Told(s: Room, i: Input): Room
    requires i.ev.Telemetry? || i.ev.Evicted? || i.ev.Left?
  {
    var t := s.(people := Advance(s.people, s.target, i));
    match i.ev
    case Telemetry(u, q, w, pace) => Emit(t, PublishSample(u, i.env.now, w, pace, i.env.publishOk))
    case Evicted(u) => Emit(t, MarkEvicted(u, i.env.markOk))
    case Left(u) =>
      Emit(t, if s.people.active then MarkEvicted(u, i.env.markOk) else LeaveCall(u, i.env.leaveOk))
  }

  lemma ToldKeeps(s: Room, i: Input)
    requires PersistInv(s) && (i.ev.Telemetry? || i.ev.Evicted? || i.ev.Left?)
    ensures PersistInv(Told(s, i)) && Told(s, i).finished == s.finished
    ensures Step(s, i) == s.(people := Advance(s.people, s.target, i)) || Step(s, i) == Told(s, i)
         || Step(s, i) == Check(Told(s, i), i.env, i.choice)
    ensures Releases(s.people, s.target, i.ev) ==> Step(s, i) == Check(Told(s, i), i.env, i.choice)
  {
    var t := s.(people := Advance(s.people, s.target, i));
    assert PersistInv(t);
    var e := Told(s, i).trace[|s.trace|];
    EmitKeeps(t, e);
    assert Emit(t, e) == Told(s, i);
  }

  lemma StepKeepsPersist(s: Room, i: Input)
    requires PersistInv(s)
    ensures PersistInv(Step(s, i)) && (s.finished ==> Step(s, i).finished)
  {
    var t := s.(people := Advance(s.people, s.target, i));
    assert PersistInv(t);
    match i.ev
    case Joined(_, _) => SnapshotKeeps(t, i.env, i.choice);
    case Disconnected(_) =>
    case EvictionQuery(u) => EmitKeeps(t, Reply(u, u in s.people.evicted, i.env.replyFits));
    case NoShowTimeout => CheckKeeps(t, i.env, i.choice);
    case Activated(prompt) => EmitKeeps(t, Broadcast(RaceStarted(prompt), i.env.noticeFits));
    case PendingExpired => if !s.finished { ExpireKeeps(t, i.env); }
    case Tick => SnapshotKeeps(t, i.env, i.choice);
    case _ =>
      ToldKeeps(s, i);
      CheckKeeps(Told(s, i), i.env, i.choice);
  }

  /** In every run, whatever fails: at most one terminal write succeeds, the room is
      finished and cancelled exactly when one has, and every notice follows the
      write it reports. */
  lemma {:induction false} OneTerminalWrite(target: int, startedAt: int, ins: seq<Input>)
    ensures PersistInv(Run(Opened(target, startedAt), ins))
  {
    if |ins| > 0 {
      OneTerminalWrite(target, startedAt, ins[..|ins| - 1]);
      StepKeepsPersist(Run(Opened(target, startedAt), ins[..|ins| - 1]), ins[|ins| - 1]);
    }
  }

  /** The entries of a notice say of each result what the database was told, but for the
      disconnect count. */
  predicate Tells(js: seq<ResultJson>, rs: seq<ParticipantResult>) {
    && |js| == |rs|
    && forall k :: 0 <= k < |js| ==>
         && js[k].userId == rs[k].userId && js[k].avgPaceWatt == rs[k].avgPaceWatt
         && js[k].finishRank == rs[k].finishRank && js[k].finishTimeMs == rs[k].finishTimeMs
  }

  /** So players are told that a race has finished, or expired, only after the database
      has taken it, and of the same standings. */
  lemma NoticesAreTrue(target: int, startedAt: int, ins: seq<Input>, k: nat) returns (j: nat)
    requires var trace := Run(Opened(target, startedAt), ins).trace;
      k < |trace| && trace[k].Broadcast? && (trace[k].frame.RaceFinished? || trace[k].frame.RaceExpired?)
    ensures var trace := Run(Opened(target, startedAt), ins).trace;
      && j < k
      && (trace[k].frame.RaceExpired? ==> trace[j] == CancelCall(true))
      && (trace[k].frame.RaceFinished? ==>
            trace[j].FinishCall? && trace[j].ok && Tells(trace[k].frame.results, trace[j].results))
  {
    OneTerminalWrite(target, startedAt, ins);
    var trace := Run(Opened(target, startedAt), ins).trace;
    j :| 0 <= j < k && Reports(trace[k], trace[j]);
  }

  // ------------------------------------------------------ the published results

  /** A publish of results follows at once the successful write of just those. */
  predicate PublishFollows(trace: seq<Effect>, k: nat)
    requires k < |trace|
  {
    trace[k].PublishFinished? ==> k > 0 && trace[k - 1] == FinishCall(trace[k].results, true)
  }

  predicate AllFollow(trace: seq<Effect>) {
    forall k :: 0 <= k < |trace| ==> PublishFollows(trace, k)
  }

  lemma EmitFollows(trace: seq<Effect>, e: Effect)
    requires AllFollow(trace)
    requires e.PublishFinished? ==> |trace| > 0 && trace[|trace| - 1] == FinishCall(e.results, true)
    ensures AllFollow(trace + [e])
  {
    forall k | 0 <= k < |trace + [e]| ensures PublishFollows(trace + [e], k) {
      if k < |trace| {
        assert PublishFollows(trace, k);
      }
    }
  }

  lemma CheckFollows(s: Room, env: Env, ch: Choice)
    requires AllFollow(s.trace)
    ensures AllFollow(Check(s, env, ch).trace)
  {
    if !s.finished && Unranked(s.people.live) == {} {
      if s.people.active {
        var snap := Snapshot(s, env, ch);
        var asked := Emit(snap, FinishCall(ch.results, env.persistOk));
        EmitFollows(s.trace, Broadcast(RaceState(s.ticks + 1, ch.rows), env.snapshotFits));
        EmitFollows(snap.trace, FinishCall(ch.results, env.persistOk));
        if env.persistOk {
          EmitFollows(asked.trace, PublishFinished(ch.results, env.publishOk));
          EmitFollows(asked.trace + [PublishFinished(ch.results, env.publishOk)],
                      Broadcast(RaceFinished(ToJson(ch.results)), env.noticeFits));
        }
      } else {
        ExpireFollows(s, env);
      }
    }
  }

  lemma ExpireFollows(s: Room, env: Env)
    requires AllFollow(s.trace)
    ensures AllFollow(Expire(s, env).trace)
  {
    EmitFollows(s.trace, CancelCall(env.persistOk));
    EmitFollows(s.trace + [CancelCall(env.persistOk)], Broadcast(RaceExpired, env.noticeFits));
  }

  lemma ToldFollows(s: Room, i: Input)
    requires AllFollow(s.trace) && (i.ev.Telemetry? || i.ev.Evicted? || i.ev.Left?)
    ensures AllFollow(Step(s, i).trace)
  {
    var told := Told(s, i);
    EmitFollows(s.trace, told.trace[|s.trace|]);
    CheckFollows(told, i.env, i.choice);
  }

  lemma TurnFollows(s: Room, i: Input)
    requires AllFollow(s.trace)
    ensures AllFollow(Step(s, i).trace)
  {
    var t := s.(people := Advance(s.people, s.target, i));
    match i.ev
    case Joined(_, _) => EmitFollows(s.trace, Broadcast(RaceState(s.ticks + 1, i.choice.rows), i.env.snapshotFits));
    case Tick => EmitFollows(s.trace, Broadcast(RaceState(s.ticks + 1, i.choice.rows), i.env.snapshotFits));
    case Activated(prompt) => EmitFollows(s.trace, Broadcast(RaceStarted(prompt), i.env.noticeFits));
    case EvictionQuery(u) => EmitFollows(s.trace, Reply(u, u in s.people.evicted, i.env.replyFits));
    case NoShowTimeout => CheckFollows(t, i.env, i.choice);
    case PendingExpired => ExpireFollows(t, i.env);
    case Disconnected(_) =>
    case _ => ToldFollows(s, i);
  }

  lemma {:induction false} EveryPublishFollows(target: int, startedAt: int, ins: seq<Input>)
    ensures AllFollow(Run(Opened(target, startedAt), ins).trace)
  {
    if |ins| > 0 {
      EveryPublishFollows(target, startedAt, ins[..|ins| - 1]);
      TurnFollows(Run(Opened(target, startedAt), ins[..|ins| - 1]), ins[|ins| - 1]);
    }
  }

  // -------------------------------------------------------- the last effect

  ghost predicate EndsWithNotice(s: Room) {
    |s.trace| > 0 && IsNotice(s.trace[|s.trace| - 1])
  }

  lemma CheckAnnounces(s: Room, env: Env, ch: Choice)
    ensures !s.finished && Check(s, env, ch).finished ==> EndsWithNotice(Check(s, env, ch))
  {
  }

  /** The turn that finishes a room puts its notice last. */
  lemma LastWord(s: Room, i: Input)
    requires PersistInv(s) && !s.finished && Step(s, i).finished
    ensures EndsWithNotice(Step(s, i))
  {
    match i.ev
    case Telemetry(_, _, _, _) => ToldKeeps(s, i); CheckAnnounces(Told(s, i), i.env, i.choice);
    case Evicted(_) => ToldKeeps(s, i); CheckAnnounces(Told(s, i), i.env, i.choice);
    case Left(_) => ToldKeeps(s, i); CheckAnnounces(Told(s, i), i.env, i.choice);
    case NoShowTimeout => CheckAnnounces(s, i.env, i.choice);
    case _ =>
  }

  // ------------------------------------------------------ the racing measure

  /** How many live participants are still to finish or go. */
  function Racing(p: People): nat {
    |Unranked(p.live)|
  }

  predicate Newly(p: People, ev: Event) {
    ev.Joined? && ev.user !in p.live
  }

  /** Exactly the events that take one racer out of the running. */
  predicate Releases(p: People, target: int, ev: Event) {
    || (ev.Telemetry? && CrossesNow(p, target, ev, ev.user))
    || (ev.Left? && ev.user in Unranked(p.live))
    || (ev.Evicted? && ev.user in Unranked(p.live) && Honoured(p, ev.user))
  }

  lemma RacersAfter(p: People, target: int, i: Input)
    ensures Unranked(Advance(p, target, i).live) ==
              if Newly(p, i.ev) then Unranked(p.live) + {i.ev.user}
              else if Releases(p, target, i.ev) then Unranked(p.live) - {i.ev.user}
              else Unranked(p.live)
  {
    match i.ev
    case Joined(u, name) => UnrankedPut(p.live, u, Advance(p, target, i).live[u]);
    case Telemetry(u, q, w, pace) =>
      if Accepts(p, u, q) { UnrankedPut(p.live, u, Advance(p, target, i).live[u]); }
    case Disconnected(u) => if u in p.live { UnrankedPut(p.live, u, Advance(p, target, i).live[u]); }
    case Evicted(u) => UnrankedCut(p.live, u);
    case Left(u) => UnrankedCut(p.live, u);
    case _ =>
  }

  /** A new join adds one racer, a release takes one away, nothing else counts. */
  lemma RacingAfter(p: People, target: int, i: Input)
    ensures Racing(Advance(p, target, i)) ==
              Racing(p) + (if Newly(p, i.ev) then 1 else 0) - (if Releases(p, target, i.ev) then 1 else 0)
  {
    RacersAfter(p, target, i);
    if Releases(p, target, i.ev) {
      assert i.ev.user in Unranked(p.live);
    }
  }

  /** No finish, leave or eviction ends a room while others race: a release ends it if
      and only if it is the last one and the write succeeds. */
  lemma ReleaseEndsIff(s: Room, i: Input)
    requires PersistInv(s) && !s.finished && Releases(s.people, s.target, i.ev)
    ensures Step(s, i).finished <==> Racing(Step(s, i).people) == 0 && i.env.persistOk
  {
    ToldKeeps(s, i);
    CheckEndsIff(Told(s, i), i.env, i.choice);
  }

  lemma CheckEndsIff(s: Room, env: Env, ch: Choice)
    requires !s.finished
    ensures Check(s, env, ch).finished <==> Racing(s.people) == 0 && env.persistOk
  {
  }

  /** Racers taken out of the running over a whole run. */
  function Released(target: int, ins: seq<Input>): nat {
    if |ins| == 0 then 0
    else
      var before := ins[..|ins| - 1];
      Released(target, before) +
      if Releases(March(NOBODY, target, before), target, ins[|ins| - 1].ev) then 1 else 0
  }

  /** Everyone who ever joined is still racing or was released, exactly once. */
  lemma {:induction false} RacersBalance(target: int, ins: seq<Input>)
    ensures var p := March(NOBODY, target, ins); p.total == Racing(p) + Released(target, ins)
  {
    if |ins| > 0 {
      RacersBalance(target, ins[..|ins| - 1]);
      RacingAfter(March(NOBODY, target, ins[..|ins| - 1]), target, ins[|ins| - 1]);
    }
  }

  // ------------------------------------------------------ no orphaned rooms

  ghost predicate NoShowSeen(ins: seq<Input>) {
    exists k :: 0 <= k < |ins| && ins[k].ev.NoShowTimeout?
  }

  lemma NobodyYet(p: People)
    requires RankInv(p) && p.total == 0
    ensures p.live == map[] && Unranked(p.live) == {}
  {
    forall u | u in p.live ensures false {
      assert Held(p, Live(u));
      if p.live[u].finishRank.None? {
        OneUnranked(p, Live(u));
      } else {
        assert Ranked(p, Live(u));
      }
    }
  }

  /** If writes never fail, an unfinished room has somebody still racing, or is
      still waiting for its first participant with the no-show timer to come. */
  lemma {:induction false} NoOrphanedRoom(target: int, startedAt: int, ins: seq<Input>)
    requires forall k :: 0 <= k < |ins| ==> ins[k].env.persistOk
    ensures var r := Run(Opened(target, startedAt), ins);
      r.finished || Racing(r.people) > 0 || (r.people.total == 0 && !NoShowSeen(ins))
  {
    if |ins| > 0 {
      var before := ins[..|ins| - 1];
      var i := ins[|ins| - 1];
      var s := Run(Opened(target, startedAt), before);
      NoOrphanedRoom(target, startedAt, before);
      OneTerminalWrite(target, startedAt, before);
      RunPeople(Opened(target, startedAt), before);
      RanksAlwaysSound(target, before);
      StepKeepsPersist(s, i);
      RacingAfter(s.people, target, i);
      if Releases(s.people, target, i.ev) {
        if !s.finished { ReleaseEndsIff(s, i); }
      } else if Racing(s.people) == 0 && !s.finished {
        NobodyYet(s.people);
        if i.ev.NoShowTimeout? { CheckKeeps(s, i.env, i.choice); }
        NoShowGrows(ins);
      }
    }
  }

  /** So if writes never fail, a race ends as soon as all who joined are released. */
  lemma EveryRaceEnds(target: int, startedAt: int, ins: seq<Input>)
    requires forall k :: 0 <= k < |ins| ==> ins[k].env.persistOk
    requires March(NOBODY, target, ins).total == Released(target, ins)
    requires March(NOBODY, target, ins).total > 0 || NoShowSeen(ins)
    ensures Run(Opened(target, startedAt), ins).finished
  {
    NoOrphanedRoom(target, startedAt, ins);
    RacersBalance(target, ins);
    RunPeople(Opened(target, startedAt), ins);
  }

  lemma NoShowGrows(ins: seq<Input>)
    requires |ins| > 0
    ensures NoShowSeen(ins) ==> NoShowSeen(ins[..|ins| - 1]) || ins[|ins| - 1].ev.NoShowTimeout?
  {
    if NoShowSeen(ins) {
      var k :| 0 <= k < |ins| && ins[k].ev.NoShowTimeout?;
      if k < |ins| - 1 {
        assert ins[..|ins| - 1][k].ev.NoShowTimeout?;
      }
    }
  }
}
