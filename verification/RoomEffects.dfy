/** What one turn of the actor tells the world, and when it ends the room, in terms of
    the event and of the participants before and after it. */
module RoomEffects {
  import opened Options
  import opened RoomHistory
  import opened RoomLifecycle
  import opened RoomModel
  import opened RoomRanks
  import opened Shared

  /** The effects that the turn adds. */
  function NewEffects(s: Room, r: Room): seq<Effect>
    requires s.trace <= r.trace
  {
    r.trace[|s.trace|..]
  }

  /** The events upon which the actor looks whether the race is over: a finish, someone
      going, and the no-show timer. */
  predicate Looks(p: People, target: int, ev: Event) {
    || (ev.Telemetry? && CrossesNow(p, target, ev, ev.user))
    || (ev.Left? && ev.user in p.live)
    || (ev.Evicted? && Honoured(p, ev.user))
    || ev.NoShowTimeout?
  }

  /** The turn is one that asks the database to end the race or to cancel it. */
  predicate OverNow(s: Room, i: Input) {
    var q := Advance(s.people, s.target, i);
    !s.finished && Looks(s.people, s.target, i.ev) && forall u :: u in q.live ==> q.live[u].finishRank.Some?
  }

  predicate ExpiresNow(s: Room, i: Input) {
    !s.finished && i.ev.PendingExpired? && !s.people.active
  }

  lemma NobodyRacing(p: People)
    ensures Unranked(p.live) == {} <==> forall u :: u in p.live ==> p.live[u].finishRank.Some?
  {
    if Unranked(p.live) == {} {
      forall u | u in p.live ensures p.live[u].finishRank.Some? {
        assert u !in Unranked(p.live);
      }
    }
  }

  // ------------------------------------------------------ the effects, in order

  function Expiry(env: Env): seq<Effect> {
    [CancelCall(env.persistOk)] + if env.persistOk then [Broadcast(RaceExpired, env.noticeFits)] else []
  }

  function Finale(ticks: nat, env: Env, ch: Choice): seq<Effect> {
    [Broadcast(RaceState(ticks + 1, ch.rows), env.snapshotFits), FinishCall(ch.results, env.persistOk)] +
    if env.persistOk then
      [PublishFinished(ch.results, env.publishOk), Broadcast(RaceFinished(ToJson(ch.results)), env.noticeFits)]
    else []
  }

  function Verdict(s: Room, env: Env, ch: Choice): seq<Effect> {
    if s.finished || Unranked(s.people.live) != {} then []
    else if s.people.active then Finale(s.ticks, env, ch) else Expiry(env)
  }

  lemma CheckTells(s: Room, env: Env, ch: Choice)
    ensures Check(s, env, ch).trace == s.trace + Verdict(s, env, ch)
    ensures Check(s, env, ch).ticks == if |Verdict(s, env, ch)| > 0 && s.people.active then s.ticks + 1 else s.ticks
  {
    ExpireTells(s, env);
    FinishTells(s, env, ch);
  }

  lemma ExpireTells(s: Room, env: Env)
    ensures Expire(s, env).trace == s.trace + Expiry(env) && Expire(s, env).ticks == s.ticks
  {
  }

  lemma FinishTells(s: Room, env: Env, ch: Choice)
    ensures Finish(s, env, ch).trace == s.trace + Finale(s.ticks, env, ch)
    ensures Finish(s, env, ch).ticks == s.ticks + 1
  {
  }

  /** What is said before the actor looks whether the race is over. */
  function Opening(s: Room, i: Input): seq<Effect> {
    var p := s.people;
    match i.ev
    case Joined(_, _) => [Broadcast(RaceState(s.ticks + 1, i.choice.rows), i.env.snapshotFits)]
    case Tick => [Broadcast(RaceState(s.ticks + 1, i.choice.rows), i.env.snapshotFits)]
    case Telemetry(u, q, w, pace) =>
      if Accepts(p, u, q) then [PublishSample(u, i.env.now, w, pace, i.env.publishOk)] else []
    case Evicted(u) => if Honoured(p, u) then [MarkEvicted(u, i.env.markOk)] else []
    case Left(u) =>
      if u !in p.live then []
      else if p.active then [MarkEvicted(u, i.env.markOk)] else [LeaveCall(u, i.env.leaveOk)]
    case EvictionQuery(u) => [Reply(u, u in p.evicted, i.env.replyFits)]
    case Activated(prompt) => [Broadcast(RaceStarted(prompt), i.env.noticeFits)]
    case _ => []
  }

  function Closing(s: Room, i: Input): seq<Effect> {
    if ExpiresNow(s, i) then Expiry(i.env)
    else if OverNow(s, i) then
      if Advance(s.people, s.target, i).active then Finale(s.ticks, i.env, i.choice) else Expiry(i.env)
    else []
  }

  lemma LookTells(s: Room, i: Input, t: Room)
    requires Looks(s.people, s.target, i.ev)
    requires t.people == Advance(s.people, s.target, i) && t.finished == s.finished && t.ticks == s.ticks
    requires t.trace == s.trace + Opening(s, i)
    requires Step(s, i) == Check(t, i.env, i.choice)
    ensures NewEffects(s, Step(s, i)) == Opening(s, i) + Closing(s, i)
  {
    NobodyRacing(t.people);
    CheckTells(t, i.env, i.choice);
    assert s.trace + Opening(s, i) + Verdict(t, i.env, i.choice) == s.trace + (Opening(s, i) + Closing(s, i));
  }

  lemma PlainTells(s: Room, i: Input)
    requires !Looks(s.people, s.target, i.ev) && !i.ev.PendingExpired?
    ensures NewEffects(s, Step(s, i)) == Opening(s, i) + Closing(s, i) && Closing(s, i) == []
    ensures Step(s, i).finished == s.finished && Step(s, i).cancelled == s.cancelled
  {
  }

  lemma ExpiryTells(s: Room, i: Input)
    requires i.ev.PendingExpired?
    ensures NewEffects(s, Step(s, i)) == Opening(s, i) + Closing(s, i)
  {
    ExpireTells(s, i.env);
  }

  /** The room as it looks whether the race is over. */
  function Looking(s: Room, i: Input): Room {
    s.(people := Advance(s.people, s.target, i), trace := s.trace + Opening(s, i))
  }

  lemma LooksThrough(s: Room, i: Input)
    requires Looks(s.people, s.target, i.ev)
    ensures Step(s, i) == Check(Looking(s, i), i.env, i.choice)
  {
    if i.ev.NoShowTimeout? {
      assert s.trace + [] == s.trace;
    }
  }

  lemma TurnTells(s: Room, i: Input)
    ensures NewEffects(s, Step(s, i)) == Opening(s, i) + Closing(s, i)
  {
    if Looks(s.people, s.target, i.ev) {
      LooksThrough(s, i);
      LookTells(s, i, Looking(s, i));
    } else if i.ev.PendingExpired? {
      ExpiryTells(s, i);
    } else {
      PlainTells(s, i);
    }
  }

  // ---------------------------------------------------- when the room is ended

  lemma CheckEnds(s: Room, env: Env, ch: Choice)
    ensures Check(s, env, ch).finished <==> s.finished || (env.persistOk && Unranked(s.people.live) == {})
    ensures Check(s, env, ch).cancelled == (s.cancelled || (Check(s, env, ch).finished && !s.finished))
  {
  }

  /** A turn ends an open room if and only if its write succeeds, and either it is one
      that looks and finds nobody racing, or the pending timer fires before the start. */
  lemma TurnEndsIff(s: Room, i: Input)
    ensures Step(s, i).finished <==> s.finished || (i.env.persistOk && (OverNow(s, i) || ExpiresNow(s, i)))
    ensures Step(s, i).cancelled == (s.cancelled || (Step(s, i).finished && !s.finished))
  {
    if Looks(s.people, s.target, i.ev) {
      NobodyRacing(Advance(s.people, s.target, i));
      LooksThrough(s, i);
      CheckEnds(Looking(s, i), i.env, i.choice);
    } else if !i.ev.PendingExpired? {
      PlainTells(s, i);
    }
  }

  // ------------------------------------------------------ who is told what, exactly

  predicate IsCancel(s: Room, i: Input) {
    ExpiresNow(s, i) || (OverNow(s, i) && !Advance(s.people, s.target, i).active)
  }

  predicate IsFinish(s: Room, i: Input) {
    OverNow(s, i) && Advance(s.people, s.target, i).active
  }

  lemma ToldHas(s: Room, i: Input, e: Effect)
    ensures e in NewEffects(s, Step(s, i)) <==> e in Opening(s, i) || e in Closing(s, i)
  {
    TurnTells(s, i);
  }

  lemma ClosingHas(s: Room, i: Input, e: Effect)
    ensures e in Closing(s, i) <==>
      || (IsCancel(s, i) && (e == CancelCall(i.env.persistOk)
                             || (i.env.persistOk && e == Broadcast(RaceExpired, i.env.noticeFits))))
      || (IsFinish(s, i) && (e == Broadcast(RaceState(s.ticks + 1, i.choice.rows), i.env.snapshotFits)
                             || e == FinishCall(i.choice.results, i.env.persistOk)))
      || (IsFinish(s, i) && i.env.persistOk
          && (e == PublishFinished(i.choice.results, i.env.publishOk)
              || e == Broadcast(RaceFinished(ToJson(i.choice.results)), i.env.noticeFits)))
  {
    assert ExpiresNow(s, i) ==> !OverNow(s, i);
    if IsCancel(s, i) {
      assert Closing(s, i) == Expiry(i.env);
    } else if IsFinish(s, i) {
      assert Closing(s, i) == Finale(s.ticks, i.env, i.choice);
    } else {
      assert Closing(s, i) == [];
    }
  }

  /** The race is cancelled, and said to have expired, exactly in a turn that ends it
      while it has not started. */
  lemma CancelsIff(s: Room, i: Input, e: Effect)
    requires e.CancelCall? || (e.Broadcast? && e.frame.RaceExpired?)
    ensures e in NewEffects(s, Step(s, i)) <==>
      IsCancel(s, i) && (if e.CancelCall? then e.ok == i.env.persistOk
                         else i.env.persistOk && e.accepted == i.env.noticeFits)
  {
    ToldHas(s, i, e);
    ClosingHas(s, i, e);
  }

  /** It is finished, and its results published and announced, exactly in a turn that
      finds nobody racing once it has started. */
  lemma FinishesIff(s: Room, i: Input, e: Effect)
    requires e.FinishCall? || e.PublishFinished? || (e.Broadcast? && e.frame.RaceFinished?)
    ensures e in NewEffects(s, Step(s, i)) <==>
      IsFinish(s, i) &&
      match e
      case FinishCall(rs, ok) => rs == i.choice.results && ok == i.env.persistOk
      case PublishFinished(rs, ok) => i.env.persistOk && rs == i.choice.results && ok == i.env.publishOk
      case Broadcast(frame, fits) =>
        i.env.persistOk && frame.results == ToJson(i.choice.results) && fits == i.env.noticeFits
      case _ => false
  {
    ToldHas(s, i, e);
    ClosingHas(s, i, e);
  }

  lemma GoesIff(p: People, target: int, i: Input, u: UserId)
    ensures u in p.live && u !in Advance(p, target, i).live <==>
      (i.ev == Left(u) && u in p.live) || (i.ev == Evicted(u) && Honoured(p, u))
  {
  }

  lemma OpeningMarks(s: Room, i: Input, u: UserId, ok: bool)
    ensures MarkEvicted(u, ok) in Opening(s, i) <==>
      ok == i.env.markOk && ((i.ev == Left(u) && u in s.people.live && s.people.active)
                             || (i.ev == Evicted(u) && Honoured(s.people, u)))
    ensures LeaveCall(u, ok) in Opening(s, i) <==>
      ok == i.env.leaveOk && i.ev == Left(u) && u in s.people.live && !s.people.active
  {
  }

  /** An eviction is recorded exactly when somebody goes for good. */
  lemma MarksIff(s: Room, i: Input, u: UserId, ok: bool)
    ensures MarkEvicted(u, ok) in NewEffects(s, Step(s, i)) <==>
      && ok == i.env.markOk && !(i.ev == Left(u) && !s.people.active)
      && u in s.people.live && u !in Advance(s.people, s.target, i).live
  {
    ToldHas(s, i, MarkEvicted(u, ok));
    ClosingHas(s, i, MarkEvicted(u, ok));
    GoesIff(s.people, s.target, i, u);
    OpeningMarks(s, i, u, ok);
  }

  /** And the race's rows are told of exactly those who withdraw while it is pending. */
  lemma LeavesIff(s: Room, i: Input, u: UserId, ok: bool)
    ensures LeaveCall(u, ok) in NewEffects(s, Step(s, i)) <==>
      && ok == i.env.leaveOk && i.ev == Left(u) && !s.people.active
      && u in s.people.live && u !in Advance(s.people, s.target, i).live
  {
    ToldHas(s, i, LeaveCall(u, ok));
    ClosingHas(s, i, LeaveCall(u, ok));
    GoesIff(s.people, s.target, i, u);
    OpeningMarks(s, i, u, ok);
  }

  /** A sample is published exactly when somebody's telemetry counts, and shows where
      it takes them. */
  lemma SamplesIff(s: Room, i: Input, u: UserId, at: int, w: int, pace: real, ok: bool)
    ensures var p, q := s.people, Step(s, i).people;
      PublishSample(u, at, w, pace, ok) in NewEffects(s, Step(s, i)) <==>
        && u in p.live && u in q.live && p.live[u].lastSeq < q.live[u].lastSeq
        && at == i.env.now && w == q.live[u].wordsCorrect && pace == q.live[u].paceWatt && ok == i.env.publishOk
  {
    var e := PublishSample(u, at, w, pace, ok);
    ToldHas(s, i, e);
    ClosingHas(s, i, e);
    SeqRises(s.people, s.target, i, u);
  }

  lemma SeqRises(p: People, target: int, i: Input, u: UserId)
    ensures var q := Advance(p, target, i);
      (u in p.live && u in q.live && p.live[u].lastSeq < q.live[u].lastSeq) <==>
      (i.ev.Telemetry? && i.ev.user == u && Accepts(p, u, i.ev.seqNo))
    ensures i.ev.Telemetry? && Accepts(p, i.ev.user, i.ev.seqNo) ==>
      var r := Advance(p, target, i).live[i.ev.user];
      r.lastSeq == i.ev.seqNo && r.wordsCorrect == i.ev.words && r.paceWatt == i.ev.pace
  {
  }

  /** The start is announced exactly upon activation, with the race's text. */
  lemma StartsIff(s: Room, i: Input, prompt: string, fits: bool)
    ensures Broadcast(RaceStarted(prompt), fits) in NewEffects(s, Step(s, i)) <==>
      i.ev == Activated(prompt) && fits == i.env.noticeFits
  {
    ToldHas(s, i, Broadcast(RaceStarted(prompt), fits));
    ClosingHas(s, i, Broadcast(RaceStarted(prompt), fits));
  }

  /** A snapshot is sent exactly upon a join, a tick, and before a finish. */
  lemma SnapshotsIff(s: Room, i: Input, n: nat, rows: seq<Row>, fits: bool)
    ensures Broadcast(RaceState(n, rows), fits) in NewEffects(s, Step(s, i)) <==>
      n == s.ticks + 1 && rows == i.choice.rows && fits == i.env.snapshotFits
      && (i.ev.Joined? || i.ev.Tick? || IsFinish(s, i))
  {
    ToldHas(s, i, Broadcast(RaceState(n, rows), fits));
    ClosingHas(s, i, Broadcast(RaceState(n, rows), fits));
  }

  lemma RepliesIff(s: Room, i: Input, u: UserId, evicted: bool, delivered: bool)
    ensures Reply(u, evicted, delivered) in NewEffects(s, Step(s, i)) <==>
      i.ev == EvictionQuery(u) && evicted == (u in s.people.evicted) && delivered == i.env.replyFits
  {
    ToldHas(s, i, Reply(u, evicted, delivered));
    ClosingHas(s, i, Reply(u, evicted, delivered));
  }

  /** What a turn has to tell of the participants comes before anything about the end. */
  lemma OpeningFirst(s: Room, i: Input)
    ensures var es := NewEffects(s, Step(s, i));
      forall k :: 0 <= k < |es| && (es[k].MarkEvicted? || es[k].LeaveCall? || es[k].PublishSample?) ==> k == 0
  {
    TurnTells(s, i);
    forall k | 0 <= k < |Closing(s, i)| ensures !Closing(s, i)[k].MarkEvicted? && !Closing(s, i)[k].LeaveCall?
      && !Closing(s, i)[k].PublishSample?
    {
      ClosingHas(s, i, Closing(s, i)[k]);
    }
  }

  predicate Once(es: seq<Effect>) {
    forall j, k :: 0 <= j < k < |es| ==> es[j] != es[k]
  }

  /** A finish is asked for right after these standings have been shown. */
  predicate ShownBefore(es: seq<Effect>, last: Effect) {
    forall k :: 0 <= k < |es| && es[k].FinishCall? ==> k > 0 && es[k - 1] == last
  }

  lemma OnceJoined(first: seq<Effect>, rest: seq<Effect>, last: Effect)
    requires |first| <= 1 && Once(rest) && ShownBefore(rest, last)
    requires first != [] ==> first[0] !in rest && !first[0].FinishCall?
    ensures Once(first + rest) && ShownBefore(first + rest, last)
  {
    var es := first + rest;
    forall k | 0 <= k < |es| && es[k].FinishCall? ensures k > 0 && es[k - 1] == last {
      assert es[k] == rest[k - |first|];
      assert rest[k - |first| - 1] == last;
    }
  }

  lemma FinaleOnce(ticks: nat, env: Env, ch: Choice)
    ensures Once(Finale(ticks, env, ch)) && Once(Expiry(env))
    ensures ShownBefore(Finale(ticks, env, ch), Broadcast(RaceState(ticks + 1, ch.rows), env.snapshotFits))
    ensures forall last :: ShownBefore(Expiry(env), last)
  {
  }

  lemma OpeningAlone(s: Room, i: Input)
    ensures |Opening(s, i)| <= 1
    ensures |Opening(s, i)| == 1 ==> Opening(s, i)[0] !in Closing(s, i) && !Opening(s, i)[0].FinishCall?
  {
    if |Opening(s, i)| == 1 {
      ClosingHas(s, i, Opening(s, i)[0]);
    }
  }

  /** Nothing is said twice in one turn, and a finish is asked for right after the last
      standings have been shown. */
  lemma SaidOnce(s: Room, i: Input)
    ensures Once(NewEffects(s, Step(s, i)))
    ensures ShownBefore(NewEffects(s, Step(s, i)),
                        Broadcast(RaceState(s.ticks + 1, i.choice.rows), i.env.snapshotFits))
  {
    TurnTells(s, i);
    FinaleOnce(s.ticks, i.env, i.choice);
    OpeningAlone(s, i);
    OnceJoined(Opening(s, i), Closing(s, i), Broadcast(RaceState(s.ticks + 1, i.choice.rows), i.env.snapshotFits));
  }

  // ----------------------------------------------------------------- over whole runs

  /** Effect k of the run is one of those of its turn n. */
  predicate OfTurn(s: Room, ins: seq<Input>, n: nat, k: nat)
    requires n < |ins|
  {
    |Run(s, ins[..n]).trace| <= k < |Run(s, ins[..n + 1]).trace|
  }

  lemma RunNext(s: Room, ins: seq<Input>, n: nat)
    requires n < |ins|
    ensures Run(s, ins[..n + 1]) == Step(Run(s, ins[..n]), ins[n])
  {
    assert ins[..n + 1][..n] == ins[..n];
  }

  /** Every effect is of some turn. */
  lemma {:induction false} TurnOf(s: Room, ins: seq<Input>, k: nat) returns (n: nat)
    requires |s.trace| <= k < |Run(s, ins).trace|
    ensures n < |ins| && OfTurn(s, ins, n, k)
  {
    var m := |ins| - 1;
    assert ins[..m + 1] == ins;
    if k < |Run(s, ins[..m]).trace| {
      n := TurnOf(s, ins[..m], k);
      assert ins[..m][..n] == ins[..n] && ins[..m][..n + 1] == ins[..n + 1];
    } else {
      n := m;
    }
  }

  lemma {:induction false} TraceGrows(s: Room, ins: seq<Input>, n: nat)
    requires n <= |ins|
    ensures Run(s, ins[..n]).trace <= Run(s, ins).trace
  {
    if n == |ins| {
      assert ins[..n] == ins;
    } else {
      assert ins[..|ins| - 1][..n] == ins[..n];
      TraceGrows(s, ins[..|ins| - 1], n);
    }
  }

  lemma InSuffix<T>(a: seq<T>, b: seq<T>, all: seq<T>, k: nat)
    requires a <= b <= all && |a| <= k < |b|
    ensures all[k] in b[|a|..]
  {
    assert all[k] == b[|a|..][k - |a|];
  }

  lemma ToldThen(s: Room, ins: seq<Input>, n: nat, k: nat)
    requires n < |ins| && OfTurn(s, ins, n, k)
    ensures k < |Run(s, ins).trace|
    ensures Run(s, ins).trace[k] in NewEffects(Run(s, ins[..n]), Step(Run(s, ins[..n]), ins[n]))
  {
    RunNext(s, ins, n);
    TraceGrows(s, ins, n + 1);
    InSuffix(Run(s, ins[..n]).trace, Step(Run(s, ins[..n]), ins[n]).trace, Run(s, ins).trace, k);
  }

  /** In every run a cancellation is asked for, and the race said to have expired, only
      in a turn that leaves the race not started; results are handed over, published and
      announced only in a turn that leaves it started. */
  lemma EndsAsItStands(target: int, startedAt: int, ins: seq<Input>, k: nat) returns (n: nat)
    requires k < |Run(Opened(target, startedAt), ins).trace|
    ensures n < |ins| && OfTurn(Opened(target, startedAt), ins, n, k)
    ensures var e, active := Run(Opened(target, startedAt), ins).trace[k], March(NOBODY, target, ins[..n + 1]).active;
      && (e.CancelCall? || (e.Broadcast? && e.frame.RaceExpired?) ==> !active)
      && (e.FinishCall? || e.PublishFinished? || (e.Broadcast? && e.frame.RaceFinished?) ==> active)
  {
    var s := Opened(target, startedAt);
    n := TurnOf(s, ins, k);
    var e := Run(s, ins).trace[k];
    ToldThen(s, ins, n, k);
    RunNext(s, ins, n);
    RunPeople(s, ins[..n + 1]);
    if e.CancelCall? || (e.Broadcast? && e.frame.RaceExpired?) {
      CancelsIff(Run(s, ins[..n]), ins[n], e);
    } else if e.FinishCall? || e.PublishFinished? || (e.Broadcast? && e.frame.RaceFinished?) {
      FinishesIff(Run(s, ins[..n]), ins[n], e);
    }
  }

  predicate HasStart(ins: seq<Input>) {
    exists k :: 0 <= k < |ins| && ins[k].ev.Activated?
  }

  /** The race is on exactly if it was ever activated. */
  lemma {:induction false} ActiveIff(target: int, ins: seq<Input>)
    ensures March(NOBODY, target, ins).active <==> HasStart(ins)
  {
    if |ins| > 0 {
      ActiveIff(target, Before(ins));
      assert forall k :: 0 <= k < |ins| - 1 ==> Before(ins)[k] == ins[k];
      if HasStart(ins) {
        var k :| 0 <= k < |ins| && ins[k].ev.Activated?;
        assert k < |ins| - 1 ==> Before(ins)[k].ev.Activated?;
      }
      if HasStart(Before(ins)) {
        var k :| 0 <= k < |ins| - 1 && Before(ins)[k].ev.Activated?;
        assert ins[k].ev.Activated?;
      }
    }
  }

  /** In event n of the run u goes for good: leaves the started race, or is evicted. */
  predicate GoesAt(target: int, ins: seq<Input>, n: nat, u: UserId) {
    && n < |ins| && u in March(NOBODY, target, ins[..n]).live && u !in March(NOBODY, target, ins[..n + 1]).live
    && (HasStart(ins[..n]) || ins[n].ev == Evicted(u))
  }

  ghost predicate HasGone(target: int, ins: seq<Input>, u: UserId) {
    exists n: nat :: GoesAt(target, ins, n, u)
  }

  lemma GoesBefore(target: int, ins: seq<Input>, n: nat, u: UserId)
    requires |ins| > 0 && n < |ins| - 1
    ensures GoesAt(target, ins, n, u) <==> GoesAt(target, Before(ins), n, u)
  {
    assert Before(ins)[..n] == ins[..n] && Before(ins)[..n + 1] == ins[..n + 1];
  }

  lemma EvictedStep(p: People, target: int, i: Input, u: UserId)
    ensures var q := Advance(p, target, i);
      u in q.evicted <==> u in p.evicted || (u in p.live && u !in q.live && (p.active || i.ev == Evicted(u)))
  {
  }

  /** Evicted are exactly those who have gone for good at some time. */
  lemma {:induction false} EvictedIff(target: int, ins: seq<Input>, u: UserId)
    ensures u in March(NOBODY, target, ins).evicted <==> HasGone(target, ins, u)
  {
    if |ins| > 0 {
      var n := |ins| - 1;
      var p, q := March(NOBODY, target, Before(ins)), March(NOBODY, target, ins);
      EvictedIff(target, Before(ins), u);
      ActiveIff(target, Before(ins));
      assert ins[..n + 1] == ins;
      EvictedStep(p, target, Last(ins), u);
      assert ins[..n] == Before(ins);
      if m: nat :| GoesAt(target, ins, m, u) {
        if m < n { GoesBefore(target, ins, m, u); }
      }
      if m: nat :| GoesAt(target, Before(ins), m, u) {
        GoesBefore(target, ins, m, u);
      }
      if u in q.evicted && u !in p.evicted {
        assert GoesAt(target, ins, n, u);
      }
    }
  }

  /** In every run a question about an eviction is answered by whether its user has gone
      for good before it. */
  lemma RepliesTrue(target: int, startedAt: int, ins: seq<Input>, k: nat) returns (n: nat)
    requires k < |Run(Opened(target, startedAt), ins).trace| && Run(Opened(target, startedAt), ins).trace[k].Reply?
    ensures n < |ins| && OfTurn(Opened(target, startedAt), ins, n, k)
    ensures var e := Run(Opened(target, startedAt), ins).trace[k];
      ins[n].ev == EvictionQuery(e.user) && (e.evicted <==> HasGone(target, ins[..n], e.user))
  {
    var s := Opened(target, startedAt);
    n := TurnOf(s, ins, k);
    var e := Run(s, ins).trace[k];
    ToldThen(s, ins, n, k);
    RunNext(s, ins, n);
    RunPeople(s, ins[..n]);
    RepliesIff(Run(s, ins[..n]), ins[n], e.user, e.evicted, e.delivered);
    EvictedIff(target, ins[..n], e.user);
  }

  // ------------------------------------------------------------------- the ticks

  predicate IsSnapshot(e: Effect) {
    e.Broadcast? && e.frame.RaceState?
  }

  /** Snapshots are numbered from one, without gaps, and `ticks` counts them. */
  predicate Numbered(trace: seq<Effect>, ticks: nat) {
    if |trace| == 0 then ticks == 0
    else
      var e := trace[|trace| - 1];
      if IsSnapshot(e) then e.frame.tick == ticks && ticks > 0 && Numbered(trace[..|trace| - 1], ticks - 1)
      else Numbered(trace[..|trace| - 1], ticks)
  }

  lemma NumberedNext(trace: seq<Effect>, ticks: nat, e: Effect)
    requires Numbered(trace, ticks)
    ensures !IsSnapshot(e) ==> Numbered(trace + [e], ticks)
    ensures IsSnapshot(e) && e.frame.tick == ticks + 1 ==> Numbered(trace + [e], ticks + 1)
  {
    assert (trace + [e])[..|trace|] == trace;
  }

  lemma {:induction false} NumberedPlain(trace: seq<Effect>, ticks: nat, es: seq<Effect>)
    requires Numbered(trace, ticks) && forall k :: 0 <= k < |es| ==> !IsSnapshot(es[k])
    ensures Numbered(trace + es, ticks)
  {
    if |es| == 0 {
      assert trace + es == trace;
    } else {
      NumberedPlain(trace, ticks, es[..|es| - 1]);
      NumberedNext(trace + es[..|es| - 1], ticks, es[|es| - 1]);
      assert trace + es[..|es| - 1] + [es[|es| - 1]] == trace + es;
    }
  }

  lemma NumberedFirst(trace: seq<Effect>, ticks: nat, es: seq<Effect>)
    requires Numbered(trace, ticks) && |es| > 0 && IsSnapshot(es[0]) && es[0].frame.tick == ticks + 1
    requires forall k :: 1 <= k < |es| ==> !IsSnapshot(es[k])
    ensures Numbered(trace + es, ticks + 1)
  {
    NumberedNext(trace, ticks, es[0]);
    NumberedPlain(trace + [es[0]], ticks + 1, es[1..]);
    assert trace + [es[0]] + es[1..] == trace + es;
  }

  lemma CheckNumbered(s: Room, env: Env, ch: Choice)
    requires Numbered(s.trace, s.ticks)
    ensures Numbered(Check(s, env, ch).trace, Check(s, env, ch).ticks)
  {
    CheckTells(s, env, ch);
    var es := Verdict(s, env, ch);
    if |es| > 0 && s.people.active {
      NumberedFirst(s.trace, s.ticks, es);
    } else {
      NumberedPlain(s.trace, s.ticks, es);
    }
  }

  lemma LookNumbered(s: Room, i: Input)
    requires Numbered(s.trace, s.ticks) && Looks(s.people, s.target, i.ev)
    ensures Numbered(Step(s, i).trace, Step(s, i).ticks)
  {
    LooksThrough(s, i);
    NumberedPlain(s.trace, s.ticks, Opening(s, i));
    CheckNumbered(Looking(s, i), i.env, i.choice);
  }

  lemma PlainNumbered(s: Room, i: Input)
    requires Numbered(s.trace, s.ticks) && !Looks(s.people, s.target, i.ev)
    requires !i.ev.PendingExpired? && !i.ev.Joined? && !i.ev.Tick?
    ensures Numbered(Step(s, i).trace, Step(s, i).ticks)
  {
    TurnTells(s, i);
    NumberedPlain(s.trace, s.ticks, NewEffects(s, Step(s, i)));
    assert Step(s, i).trace == s.trace + NewEffects(s, Step(s, i));
  }

  lemma TickNumbered(s: Room, i: Input)
    requires Numbered(s.trace, s.ticks) && (i.ev.Joined? || i.ev.Tick?)
    ensures Numbered(Step(s, i).trace, Step(s, i).ticks)
  {
    NumberedNext(s.trace, s.ticks, Broadcast(RaceState(s.ticks + 1, i.choice.rows), i.env.snapshotFits));
  }

  lemma TurnNumbered(s: Room, i: Input)
    requires Numbered(s.trace, s.ticks)
    ensures Numbered(Step(s, i).trace, Step(s, i).ticks)
  {
    if Looks(s.people, s.target, i.ev) {
      LookNumbered(s, i);
    } else if i.ev.PendingExpired? {
      ExpireTells(s, i.env);
      NumberedPlain(s.trace, s.ticks, Expiry(i.env));
    } else if i.ev.Joined? || i.ev.Tick? {
      TickNumbered(s, i);
    } else {
      PlainNumbered(s, i);
    }
  }

  lemma {:induction false} SnapshotsNumbered(target: int, startedAt: int, ins: seq<Input>)
    ensures var r := Run(Opened(target, startedAt), ins); Numbered(r.trace, r.ticks)
  {
    if |ins| > 0 {
      SnapshotsNumbered(target, startedAt, Before(ins));
      TurnNumbered(Run(Opened(target, startedAt), Before(ins)), Last(ins));
    }
  }
}
