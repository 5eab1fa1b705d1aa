/** The room actor as a value: what one race's state is, what each event does to
    it, and which calls to its collaborators each event makes.  The class in
    RoomActor.dfy is the program's in-place form and is proved equal to this. */
module RoomModel {
  import opened Options
  import opened Shared

  /** Clock readings are nanoseconds. */
  datatype Participant = Participant(
    userId: UserId,
    displayName: string,
    wordsCorrect: int,
    lastSeq: int,
    paceWatt: real,
    connectedAt: int,
    disconnectedAt: Option<int>,
    disconnectedCount: nat,
    graceTimer: bool,
    finishedAt: Option<int>,
    finishRank: Option<int>)

  datatype Event =
    | Joined(user: UserId, name: string)
    | Telemetry(user: UserId, seqNo: int, words: int, pace: real)
    | Disconnected(user: UserId)
    | Evicted(user: UserId)
    | Left(user: UserId)
    | EvictionQuery(user: UserId)
    | NoShowTimeout
    | Activated(promptText: string)
    | PendingExpired
    | Tick  // the ticker case of the actor's select loop

  datatype ParticipantResult = ParticipantResult(
    userId: UserId,
    finishRank: Option<int>,
    finishTimeMs: Option<int>,
    avgPaceWatt: real,
    disconnectedCount: nat)

  datatype ResultJson = ResultJson(
    userId: UserId,
    finishRank: Option<int>,
    finishTimeMs: Option<int>,
    avgPaceWatt: real)

  datatype Row = Row(userId: UserId, distance: int, rank: int)

  datatype Frame =
    | RaceState(tick: nat, rows: seq<Row>)
    | RaceStarted(promptText: string)
    | RaceExpired
    | RaceFinished(results: seq<ResultJson>)

  /** Every interaction of the actor with the world outside its own fields. */
  datatype Effect =
    | Broadcast(frame: Frame, accepted: bool)
    | FinishCall(results: seq<ParticipantResult>, ok: bool)
    | CancelCall(ok: bool)
    | LeaveCall(user: UserId, ok: bool)
    | MarkEvicted(user: UserId, ok: bool)
    | PublishSample(user: UserId, at: int, words: int, pace: real, ok: bool)
    | PublishFinished(results: seq<ParticipantResult>, ok: bool)
    | Reply(user: UserId, evicted: bool, delivered: bool)

  /** What the world answers while one event is applied: the clock, whether each
      collaborator call succeeds, and whether each channel had room. */
  datatype Env = Env(
    now: int,
    persistOk: bool,
    leaveOk: bool,
    markOk: bool,
    publishOk: bool,
    snapshotFits: bool,
    noticeFits: bool,
    replyFits: bool)

  /** What iterating the program's hash maps produced, in whatever order. */
  datatype Choice = Choice(rows: seq<Row>, results: seq<ParticipantResult>)

  datatype Input = Input(ev: Event, env: Env, choice: Choice)

  /** The part of the state that concerns the participants. */
  datatype People = People(
    live: map<UserId, Participant>,
    departed: map<UserId, Participant>,
    evicted: set<UserId>,
    total: nat,
    finishedCount: nat,
    active: bool)

  datatype Room = Room(
    people: People,
    target: int,
    startedAt: int,
    ticks: nat,
    finished: bool,
    cancelled: bool,
    trace: seq<Effect>)

  const NOBODY := People(map[], map[], {}, 0, 0, false)

  function Opened(target: int, startedAt: int): Room {
    Room(NOBODY, target, startedAt, 0, false, false, [])
  }

  // ---------------------------------------------------------------- people

  function Newcomer(u: UserId, name: string, now: int): Participant {
    Participant(u, name, 0, 0, 0.0, now, None, 0, false, None, None)
  }

  function Unranked(m: map<UserId, Participant>): set<UserId> {
    set u | u in m && m[u].finishRank.None?
  }

  /** Telemetry that the actor acts upon. */
  predicate Accepts(p: People, u: UserId, seqNo: int) {
    p.active && u in p.live && seqNo > p.live[u].lastSeq
  }

  /** Accepted telemetry that takes the participant over the line. */
  predicate Crosses(p: People, target: int, u: UserId, seqNo: int, words: int) {
    Accepts(p, u, seqNo) && p.live[u].finishRank.None? && words >= target
  }

  /** An eviction notice is honoured only for someone who is still disconnected. */
  predicate Honoured(p: People, u: UserId) {
    u in p.live && p.live[u].disconnectedAt.Some?
  }

  function Depart(p: People, u: UserId): People
    requires u in p.live
  {
    p.(live := p.live - {u}, departed := p.departed[u := p.live[u]], evicted := p.evicted + {u})
  }

  function Reattached(q: Participant): Participant {
    q.(disconnectedAt := None, graceTimer := false)
  }

  function Detached(q: Participant, now: int): Participant {
    q.(disconnectedAt := Some(now), disconnectedCount := q.disconnectedCount + 1, graceTimer := true)
  }

  function Moved(q: Participant, seqNo: int, words: int, pace: real): Participant {
    q.(wordsCorrect := words, lastSeq := seqNo, paceWatt := pace)
  }

  function Placed(q: Participant, rank: nat, now: int): Participant {
    q.(finishedAt := Some(now), finishRank := Some(rank))
  }

  function Seat(p: People, u: UserId, name: string, now: int): People {
    if u in p.live then
      if p.live[u].disconnectedAt.Some? then
        p.(live := p.live[u := Reattached(p.live[u])])
      else p
    else
      p.(live := p.live[u := Newcomer(u, name, now)], total := p.total + 1)
  }

  function Progress(p: People, target: int, u: UserId, seqNo: int, words: int, pace: real, now: int): People {
    if !Accepts(p, u, seqNo) then p
    else
      var moved := Moved(p.live[u], seqNo, words, pace);
      if Crosses(p, target, u, seqNo, words) then
        p.(live := p.live[u := Placed(moved, p.finishedCount + 1, now)],
           finishedCount := p.finishedCount + 1)
      else
        p.(live := p.live[u := moved])
  }

  function Drop(p: People, u: UserId, now: int): People {
    if u !in p.live then p else p.(live := p.live[u := Detached(p.live[u], now)])
  }

  /** The events upon which u leaves the race for good. */
  predicate DepartsNow(p: People, ev: Event, u: UserId) {
    || (ev == Evicted(u) && Honoured(p, u))
    || (ev == Left(u) && u in p.live && p.active)
  }

  /** The event upon which u crosses the line. */
  predicate CrossesNow(p: People, target: int, ev: Event, u: UserId) {
    ev.Telemetry? && ev.user == u && Crosses(p, target, u, ev.seqNo, ev.words)
  }

  /** What an event does to the participants.  It never depends on whether the
      room has already finished, nor on any collaborator's answer. */
  function Advance(p: People, target: int, i: Input): People {
    match i.ev
    case Joined(u, name) => Seat(p, u, name, i.env.now)
    case Telemetry(u, q, w, pace) => Progress(p, target, u, q, w, pace, i.env.now)
    case Disconnected(u) => Drop(p, u, i.env.now)
    case Evicted(u) => if Honoured(p, u) then Depart(p, u) else p
    case Left(u) =>
      if u !in p.live then p
      else if p.active then Depart(p, u)
      else p.(live := p.live - {u})
    case Activated(_) => p.(active := true)
    case EvictionQuery(_) => p
    case NoShowTimeout => p
    case PendingExpired => p
    case Tick => p
  }

  // ------------------------------------------------------------- the room

  function Emit(s: Room, e: Effect): Room {
    s.(trace := s.trace + [e])
  }

  /** Duration in whole milliseconds, truncated toward zero. */
  function Millis(d: int): int {
    if d >= 0 then d / 1000000 else -((-d) / 1000000)
  }

  function BuildResult(q: Participant, total: nat, startedAt: int): ParticipantResult {
    ParticipantResult(
      q.userId,
      Some(if q.finishRank.Some? then q.finishRank.value else total),
      if q.finishedAt.Some? then Some(Millis(q.finishedAt.value - startedAt)) else None,
      q.paceWatt,
      q.disconnectedCount)
  }

  function ToJson(rs: seq<ParticipantResult>): (js: seq<ResultJson>)
    ensures |js| == |rs|
  {
    seq(|rs|, k requires 0 <= k < |rs| =>
      ResultJson(rs[k].userId, rs[k].finishRank, rs[k].finishTimeMs, rs[k].avgPaceWatt))
  }

  function Snapshot(s: Room, env: Env, ch: Choice): (r: Room)
    ensures s.trace <= r.trace
  {
    Emit(s.(ticks := s.ticks + 1), Broadcast(RaceState(s.ticks + 1, ch.rows), env.snapshotFits))
  }

  function Expire(s: Room, env: Env): (r: Room)
    ensures s.trace <= r.trace
  {
    var asked := Emit(s, CancelCall(env.persistOk));
    if !env.persistOk then asked
    else Emit(asked, Broadcast(RaceExpired, env.noticeFits)).(finished := true, cancelled := true)
  }

  function Finish(s: Room, env: Env, ch: Choice): (r: Room)
    ensures s.trace <= r.trace
  {
    var rs := ch.results;
    var asked := Emit(Snapshot(s, env, ch), FinishCall(rs, env.persistOk));
    if !env.persistOk then asked
    else
      Emit(Emit(asked, PublishFinished(rs, env.publishOk)),
           Broadcast(RaceFinished(ToJson(rs)), env.noticeFits)).(finished := true, cancelled := true)
  }

  function Check(s: Room, env: Env, ch: Choice): (r: Room)
    ensures s.trace <= r.trace
  {
    if s.finished || Unranked(s.people.live) != {} then s
    else if !s.people.active then Expire(s, env)
    else Finish(s, env, ch)
  }

  /** One turn of the actor's loop. */
  function Step(s: Room, i: Input): (r: Room)
    ensures r.people == Advance(s.people, s.target, i)
    ensures r.target == s.target && r.startedAt == s.startedAt && s.trace <= r.trace
  {
    var t := s.(people := Advance(s.people, s.target, i));
    match i.ev
    case Joined(_, _) => Snapshot(t, i.env, i.choice)
    case Telemetry(u, q, w, pace) =>
      if !Accepts(s.people, u, q) then t
      else
        var told := Emit(t, PublishSample(u, i.env.now, w, pace, i.env.publishOk));
        if Crosses(s.people, s.target, u, q, w) then Check(told, i.env, i.choice) else told
    case Disconnected(_) => t
    case Evicted(u) =>
      if Honoured(s.people, u) then Check(Emit(t, MarkEvicted(u, i.env.markOk)), i.env, i.choice) else t
    case Left(u) =>
      if u !in s.people.live then t
      else if s.people.active then Check(Emit(t, MarkEvicted(u, i.env.markOk)), i.env, i.choice)
      else Check(Emit(t, LeaveCall(u, i.env.leaveOk)), i.env, i.choice)
    case EvictionQuery(u) => Emit(t, Reply(u, u in s.people.evicted, i.env.replyFits))
    case NoShowTimeout => Check(t, i.env, i.choice)
    case Activated(prompt) => Emit(t, Broadcast(RaceStarted(prompt), i.env.noticeFits))
    case PendingExpired => if s.people.active || s.finished then t else Expire(t, i.env)
    case Tick => Snapshot(t, i.env, i.choice)
  }

  // ------------------------------------- what map iteration may produce

  function RowUsers(rows: seq<Row>): set<UserId> {
    set r | r in rows :: r.userId
  }

  function ResultUsers(rs: seq<ParticipantResult>): set<UserId> {
    set r | r in rs :: r.userId
  }

  /** Each of these users once, with their words, most words first. */
  ghost predicate Ordered(rows: seq<Row>, live: map<UserId, Participant>, users: set<UserId>) {
    && RowUsers(rows) == users
    && (forall k :: 0 <= k < |rows| ==>
          rows[k].userId in live && rows[k].distance == live[rows[k].userId].wordsCorrect)
    && (forall j, k :: 0 <= j < k < |rows| ==> rows[j].userId != rows[k].userId && rows[j].distance >= rows[k].distance)
  }

  /** The rows of a snapshot: every live participant, ranked from 1. */
  ghost predicate RankingOf(rows: seq<Row>, live: map<UserId, Participant>) {
    Ordered(rows, live, live.Keys) && forall k :: 0 <= k < |rows| ==> rows[k].rank == k + 1
  }

  /** One result for each of these users, in some order. */
  ghost predicate Listed(rs: seq<ParticipantResult>, m: map<UserId, Participant>, users: set<UserId>,
                         total: nat, startedAt: int) {
    && ResultUsers(rs) == users
    && (forall k :: 0 <= k < |rs| ==>
          rs[k].userId in m && rs[k] == BuildResult(m[rs[k].userId], total, startedAt))
    && (forall j, k :: 0 <= j < k < |rs| ==> rs[j].userId != rs[k].userId)
  }

  ghost predicate Lists(rs: seq<ParticipantResult>, m: map<UserId, Participant>, total: nat, startedAt: int) {
    Listed(rs, m, m.Keys, total, startedAt)
  }

  ghost predicate ListsUpTo(n: nat, rs: seq<ParticipantResult>, p: People, startedAt: int) {
    && n <= |rs|
    && Lists(rs[..n], p.live, p.total, startedAt)
    && Lists(rs[n..], p.departed, p.total, startedAt)
  }

  /** First the live participants, then the departed ones. */
  ghost predicate ListingOf(rs: seq<ParticipantResult>, p: People, startedAt: int) {
    exists n: nat :: ListsUpTo(n, rs, p, startedAt)
  }

  ghost predicate Genuine(e: Effect, s: Room) {
    && (e.FinishCall? ==> ListingOf(e.results, s.people, s.startedAt))
    && (e.Broadcast? && e.frame.RaceState? ==> RankingOf(e.frame.rows, s.people.live))
  }

  /** The finish check will go on to persist results. */
  predicate Finishing(s: Room) {
    !s.finished && Unranked(s.people.live) == {} && s.people.active
  }

  ghost predicate Suits(s: Room, ch: Choice) {
    RankingOf(ch.rows, s.people.live) && ListingOf(ch.results, s.people, s.startedAt)
  }

  /** The choice made in this turn is one that map iteration can produce. */
  ghost predicate ChoiceOk(s: Room, i: Input) {
    var r := Step(s, i);
    forall k :: |s.trace| <= k < |r.trace| ==> Genuine(r.trace[k], r)
  }

  // ------------------------------------------------------------------ runs

  function Run(s: Room, ins: seq<Input>): Room {
    if |ins| == 0 then s else Step(Run(s, ins[..|ins| - 1]), ins[|ins| - 1])
  }

  function March(p: People, target: int, ins: seq<Input>): People {
    if |ins| == 0 then p else Advance(March(p, target, ins[..|ins| - 1]), target, ins[|ins| - 1])
  }

  ghost predicate HonestRun(s: Room, ins: seq<Input>) {
    |ins| == 0 ||
    (HonestRun(s, ins[..|ins| - 1]) && ChoiceOk(Run(s, ins[..|ins| - 1]), ins[|ins| - 1]))
  }

  lemma {:induction false} RunPeople(s: Room, ins: seq<Input>)
    ensures Run(s, ins).people == March(s.people, s.target, ins)
    ensures Run(s, ins).target == s.target && Run(s, ins).startedAt == s.startedAt
  {
    if |ins| > 0 {
      RunPeople(s, ins[..|ins| - 1]);
    }
  }
}
