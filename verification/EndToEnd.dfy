/** The actor and the pipeline together: what the database holds is what every
    healthy connection is told. */
module EndToEnd {
  import opened RoomModel
  import opened RoomLifecycle
  import opened Delivery

  // ------------------------------------------------- the actor on its channel

  /** The inputs the actor has taken, the pipeline's moves, how many of the actor's
      effects have been carried out, and the inputs taken when it cancelled. */
  datatype World = World(ins: seq<Input>, moves: seq<Move>, done: nat, final: nat)

  /** What may happen next: the actor takes an input; its next effect is carried out;
      having finished the turn that ended the room, it cancels; or something else in
      the pipeline moves. */
  datatype Beat = Turn(i: Input) | Act | Stop | Flow(m: Move)

  const START := World([], [], 0, 0)

  function RoomOf(target: int, startedAt: int, w: World): Room {
    Run(Opened(target, startedAt), w.ins)
  }

  /** Whether the actor's channel had room is for the channel to say. */
  predicate Can(target: int, startedAt: int, w: World, b: Beat)
    requires Runs(w.moves)
  {
    var r, p := RoomOf(target, startedAt, w), After(w.moves);
    match b
    case Turn(_) => w.done == |r.trace| && (r.cancelled ==> p.cancelled)
    case Act =>
      w.done < |r.trace| &&
      (r.trace[w.done].Broadcast? ==> (r.trace[w.done].accepted <==> |p.chan| < BROADCAST_BUFFER))
    case Stop => w.done == |r.trace| && r.cancelled && !p.cancelled
    case Flow(m) => !m.Offer? && !m.Cancel? && Enabled(p, m)
  }

  function Does(target: int, startedAt: int, w: World, b: Beat): (v: World)
    requires Runs(w.moves) && Can(target, startedAt, w, b)
    ensures Runs(v.moves)
  {
    match b
    case Turn(i) => w.(ins := w.ins + [i])
    case Act =>
      var e := RoomOf(target, startedAt, w).trace[w.done];
      if e.Broadcast? then
        Extend(w.moves, Offer(e.frame));
        w.(done := w.done + 1, moves := w.moves + [Offer(e.frame)])
      else w.(done := w.done + 1)
    case Stop =>
      Extend(w.moves, Cancel);
      w.(moves := w.moves + [Cancel], final := |w.ins|)
    case Flow(m) =>
      Extend(w.moves, m);
      w.(moves := w.moves + [m])
  }

  predicate Lives(target: int, startedAt: int, beats: seq<Beat>)
    decreases |beats|, 0
  {
    |beats| == 0 ||
    (Lives(target, startedAt, beats[..|beats| - 1]) &&
     Can(target, startedAt, WorldAfter(target, startedAt, beats[..|beats| - 1]), beats[|beats| - 1]))
  }

  function WorldAfter(target: int, startedAt: int, beats: seq<Beat>): (w: World)
    requires Lives(target, startedAt, beats)
    ensures Runs(w.moves)
    decreases |beats|, 1
  {
    if |beats| == 0 then START
    else Does(target, startedAt, WorldAfter(target, startedAt, beats[..|beats| - 1]), beats[|beats| - 1])
  }

  // ---------------------------------------------------------- it stays in step

  lemma AcceptedNext(trace: seq<Effect>, n: nat)
    requires n < |trace|
    ensures var e := trace[n];
      AcceptedFrames(trace[..n + 1]) ==
        if e.Broadcast? && e.accepted then AcceptedFrames(trace[..n]) + [e.frame] else AcceptedFrames(trace[..n])
  {
    assert trace[..n + 1][..n] == trace[..n];
  }

  /** Up to the cancellation, the channel has taken in just the broadcasts it is on
      record as having had room for. */
  ghost predicate InStep(target: int, startedAt: int, w: World)
    requires Runs(w.moves)
  {
    var r, p := RoomOf(target, startedAt, w), After(w.moves);
    && w.done <= |r.trace|
    && (if p.cancelled then Settled(target, startedAt, w)
        else Accepted(p) == AcceptedFrames(r.trace[..w.done]) && (r.finished ==> EndsNow(target, startedAt, w.ins)))
  }

  /** The last of these inputs finished the room. */
  predicate EndsNow(target: int, startedAt: int, ins: seq<Input>) {
    && |ins| > 0
    && !Run(Opened(target, startedAt), ins[..|ins| - 1]).finished
    && Run(Opened(target, startedAt), ins).finished
  }

  predicate Settled(target: int, startedAt: int, w: World)
    requires Runs(w.moves)
  {
    && w.final <= |w.ins|
    && EndsNow(target, startedAt, w.ins[..w.final])
    && FedBy(After(w.moves), Run(Opened(target, startedAt), w.ins[..w.final]).trace)
  }

  lemma TurnInStep(target: int, startedAt: int, w: World, i: Input)
    requires Runs(w.moves) && InStep(target, startedAt, w) && Can(target, startedAt, w, Turn(i))
    ensures InStep(target, startedAt, Does(target, startedAt, w, Turn(i)))
  {
    var s, ins := RoomOf(target, startedAt, w), w.ins + [i];
    assert ins[..|w.ins|] == w.ins;
    var r := Step(s, i);
    assert Run(Opened(target, startedAt), ins) == r;
    assert r.trace[..w.done] == s.trace == s.trace[..w.done];
    OneTerminalWrite(target, startedAt, w.ins);
    if After(w.moves).cancelled {
      assert ins[..w.final] == w.ins[..w.final];
    }
  }

  lemma OfferTakes(p: Pipe, f: Frame)
    ensures Accepted(Next(p, Offer(f))) == if |p.chan| < BROADCAST_BUFFER then Accepted(p) + [f] else Accepted(p)
  {
    assert p.drained + (p.chan + [f]) == p.drained + p.chan + [f];
  }

  lemma OfferFed(p: Pipe, f: Frame, trace: seq<Effect>)
    requires FedBy(p, trace)
    ensures FedBy(Next(p, Offer(f)), trace)
  {
    var q := Next(p, Offer(f));
    OfferTakes(p, f);
    assert Accepted(q)[..q.cancelAt] == Accepted(p)[..p.cancelAt];
  }

  lemma SendInStep(target: int, startedAt: int, w: World)
    requires Runs(w.moves) && InStep(target, startedAt, w) && Can(target, startedAt, w, Act)
    requires RoomOf(target, startedAt, w).trace[w.done].Broadcast?
    ensures InStep(target, startedAt, Does(target, startedAt, w, Act))
  {
    var r, p := RoomOf(target, startedAt, w), After(w.moves);
    var f := r.trace[w.done].frame;
    Extend(w.moves, Offer(f));
    if p.cancelled {
      OfferFed(p, f, Run(Opened(target, startedAt), w.ins[..w.final]).trace);
    } else {
      AcceptedNext(r.trace, w.done);
      OfferTakes(p, f);
    }
  }

  lemma ActInStep(target: int, startedAt: int, w: World)
    requires Runs(w.moves) && InStep(target, startedAt, w) && Can(target, startedAt, w, Act)
    ensures InStep(target, startedAt, Does(target, startedAt, w, Act))
  {
    if RoomOf(target, startedAt, w).trace[w.done].Broadcast? {
      SendInStep(target, startedAt, w);
    } else {
      AcceptedNext(RoomOf(target, startedAt, w).trace, w.done);
    }
  }

  lemma StopInStep(target: int, startedAt: int, w: World)
    requires Runs(w.moves) && InStep(target, startedAt, w) && Can(target, startedAt, w, Stop)
    ensures InStep(target, startedAt, Does(target, startedAt, w, Stop))
  {
    var r := RoomOf(target, startedAt, w);
    Extend(w.moves, Cancel);
    OneTerminalWrite(target, startedAt, w.ins);
    assert r.trace[..w.done] == r.trace && w.ins[..|w.ins|] == w.ins;
    var p := After(w.moves + [Cancel]);
    assert Accepted(p)[..p.cancelAt] == Accepted(p);
  }

  lemma FlowKeeps(p: Pipe, m: Move)
    requires Enabled(p, m) && !m.Offer? && !m.Cancel?
    ensures Accepted(Next(p, m)) == Accepted(p)
    ensures Next(p, m).cancelled == p.cancelled && Next(p, m).cancelAt == p.cancelAt
  {
    if m.DrainOne? {
      assert p.drained + [p.chan[0]] + p.chan[1..] == p.drained + p.chan;
    }
  }

  lemma FlowInStep(target: int, startedAt: int, w: World, m: Move)
    requires Runs(w.moves) && InStep(target, startedAt, w) && Can(target, startedAt, w, Flow(m))
    ensures InStep(target, startedAt, Does(target, startedAt, w, Flow(m)))
  {
    Extend(w.moves, m);
    FlowKeeps(After(w.moves), m);
  }

  /** In every joint run the pipeline is fed the actor's own broadcasts, and the room
      is cancelled by the turn that finished it. */
  lemma {:induction false} AlwaysInStep(target: int, startedAt: int, beats: seq<Beat>)
    requires Lives(target, startedAt, beats)
    ensures InStep(target, startedAt, WorldAfter(target, startedAt, beats))
  {
    if |beats| > 0 {
      AlwaysInStep(target, startedAt, beats[..|beats| - 1]);
      var w := WorldAfter(target, startedAt, beats[..|beats| - 1]);
      match beats[|beats| - 1]
      case Turn(i) => TurnInStep(target, startedAt, w, i);
      case Act => ActInStep(target, startedAt, w);
      case Stop => StopInStep(target, startedAt, w);
      case Flow(m) => FlowInStep(target, startedAt, w, m);
    }
  }

  // ------------------------------------------------------------- the main result

  predicate AcceptsLast(trace: seq<Effect>) {
    |trace| > 0 && trace[|trace| - 1].Broadcast? && trace[|trace| - 1].accepted
  }

  /** Some successful terminal write, and the notice that reports it, sent. */
  ghost predicate ToldTheOutcome(trace: seq<Effect>, written: seq<Frame>) {
    exists e, n :: e in trace && n in trace && Settles(e) && Reports(n, e) && n.frame in written
  }

  /** In any joint run of actor and pipeline in which the notice found room in the
      channel and no publish failed: every connection that registered before the
      notice, was never cut or overrun, and has been closed by the end of the room has
      been sent exactly the outcome that was persisted. */
  lemma OutcomeReachesEveryone(target: int, startedAt: int, beats: seq<Beat>, c: ConnId)
    requires Lives(target, startedAt, beats)
    requires var w := WorldAfter(target, startedAt, beats);
      && CleanEnd(After(w.moves), c) && !After(w.moves).lossy
      && After(w.moves).conns[c].since < After(w.moves).cancelAt
      && w.final <= |w.ins| && AcceptsLast(Run(Opened(target, startedAt), w.ins[..w.final]).trace)
    ensures var w := WorldAfter(target, startedAt, beats);
      && EndsNow(target, startedAt, w.ins[..w.final])
      && ToldTheOutcome(Run(Opened(target, startedAt), w.ins[..w.final]).trace, After(w.moves).conns[c].written)
  {
    var w := WorldAfter(target, startedAt, beats);
    AlwaysInStep(target, startedAt, beats);
    EverythingDelivered(w.moves, c);
    FinalIsTold(target, startedAt, w.ins[..w.final], w.moves, c);
  }

  lemma FinalIsTold(target: int, startedAt: int, ins: seq<Input>, moves: seq<Move>, c: ConnId)
    requires EndsNow(target, startedAt, ins)
    requires AcceptsLast(Run(Opened(target, startedAt), ins).trace)
    requires Runs(moves) && CleanEnd(After(moves), c) && !After(moves).lossy
    requires FedBy(After(moves), Run(Opened(target, startedAt), ins).trace)
    requires After(moves).conns[c].since < After(moves).cancelAt
    ensures ToldTheOutcome(Run(Opened(target, startedAt), ins).trace, After(moves).conns[c].written)
  {
    var s := Run(Opened(target, startedAt), ins[..|ins| - 1]);
    var trace := Run(Opened(target, startedAt), ins).trace;
    OneTerminalWrite(target, startedAt, ins[..|ins| - 1]);
    OneTerminalWrite(target, startedAt, ins);
    LastWord(s, ins[|ins| - 1]);
    var n := trace[|trace| - 1];
    var j :| 0 <= j < |trace| - 1 && Reports(n, trace[j]);
    LastFrameArrives(trace, n.frame, moves, c);
    assert trace[j] in trace && n in trace;
  }

  // ------------------------------------------------------------- such a run exists

  /** These beats lead to this world and this pipeline. */
  ghost predicate At(target: int, startedAt: int, beats: seq<Beat>, w: World, p: Pipe) {
    Lives(target, startedAt, beats) && WorldAfter(target, startedAt, beats) == w && Runs(w.moves) && After(w.moves) == p
  }

  lemma Beats(target: int, startedAt: int, beats: seq<Beat>, b: Beat, w: World, p: Pipe)
    requires At(target, startedAt, beats, w, p) && Can(target, startedAt, w, b)
    ensures var v := Does(target, startedAt, w, b); At(target, startedAt, beats + [b], v, After(v.moves))
  {
    assert (beats + [b])[..|beats|] == beats;
  }

  lemma Flows(target: int, startedAt: int, beats: seq<Beat>, m: Move, w: World, p: Pipe)
    requires At(target, startedAt, beats, w, p) && Enabled(p, m) && !m.Offer? && !m.Cancel?
    ensures At(target, startedAt, beats + [Flow(m)], w.(moves := w.moves + [m]), Next(p, m))
  {
    Beats(target, startedAt, beats, Flow(m), w, p);
    Extend(w.moves, m);
  }

  const CALM := Env(0, true, true, true, true, true, true, true)

  /** Nobody shows up. */
  function NoShow(): Input {
    Input(NoShowTimeout, CALM, Choice([], []))
  }

  lemma NoShowTrace(target: int, startedAt: int)
    ensures var r := Run(Opened(target, startedAt), [NoShow()]);
      r.trace == [CancelCall(true), Broadcast(RaceExpired, true)] && r.finished && r.cancelled
  {
    assert [NoShow()][..0] == [];
    assert Unranked(NOBODY.live) == {};
  }

  /** The pipeline with one connection before and just after the room's end, and when
      that connection's writer has ended. */
  function Watching(): Pipe {
    IDLE.(conns := map[0 := Conn(true, 0, 0, [], [], false, false, Running)])
  }

  function Expiring(): Pipe {
    Watching().(offered := [RaceExpired], chan := [RaceExpired])
  }

  function Expired(): Pipe {
    Expiring().(cancelled := true, cancelAt := 1)
  }

  lemma WatchExpires(target: int, startedAt: int) returns (beats: seq<Beat>, w: World)
    ensures At(target, startedAt, beats, w, Expired()) && w == World([NoShow()], w.moves, 2, 1)
  {
    NoShowTrace(target, startedAt);
    assert [] + [NoShow()] == [NoShow()];
    beats := [];
    assert At(target, startedAt, beats, START, IDLE);
    Flows(target, startedAt, beats, Register(0), START, IDLE);
    beats := beats + [Flow(Register(0))];
    w := START.(moves := [] + [Register(0)]);
    assert Next(IDLE, Register(0)) == Watching();
    Beats(target, startedAt, beats, Turn(NoShow()), w, Watching());
    beats, w := beats + [Turn(NoShow())], w.(ins := [NoShow()]);
    Beats(target, startedAt, beats, Act, w, Watching());
    beats, w := beats + [Act], w.(done := 1);
    beats, w := WatchIsTold(target, startedAt, beats, w);
  }

  lemma WatchIsTold(target: int, startedAt: int, beats: seq<Beat>, w: World) returns (more: seq<Beat>, v: World)
    requires At(target, startedAt, beats, w, Watching()) && w == World([NoShow()], w.moves, 1, 0)
    ensures At(target, startedAt, more, v, Expired()) && v == World([NoShow()], v.moves, 2, 1)
  {
    NoShowTrace(target, startedAt);
    Beats(target, startedAt, beats, Act, w, Watching());
    Extend(w.moves, Offer(RaceExpired));
    more, v := beats + [Act], w.(done := 2, moves := w.moves + [Offer(RaceExpired)]);
    assert Next(Watching(), Offer(RaceExpired)) == Expiring();
    Beats(target, startedAt, more, Stop, v, Expiring());
    Extend(v.moves, Cancel);
    assert Next(Expiring(), Cancel) == Expired();
    more, v := more + [Stop], v.(moves := v.moves + [Cancel], final := 1);
  }

  function Drained(): Pipe {
    Expired().(chan := [], drained := [RaceExpired], drain := Exited, closeCalls := 1,
               published := [Payload(RaceExpired), RoomClosed])
  }

  /** The hub has closed, and this is the connection. */
  function Ending(k: Conn): Pipe {
    Drained().(hubRead := 2, fanned := [RaceExpired], hub := ClosedByRoom, conns := map[0 := k])
  }

  const TAKEN := Conn(true, 0, 0, [RaceExpired], [], false, false, Running)
  const SENT := Conn(true, 0, 0, [], [RaceExpired], false, false, Running)

  lemma WatchDrains(target: int, startedAt: int, beats: seq<Beat>, w: World) returns (more: seq<Beat>, v: World)
    requires At(target, startedAt, beats, w, Expired())
    ensures At(target, startedAt, more, v, Drained()) && v == w.(moves := v.moves)
  {
    DrainMoves();
    Flows(target, startedAt, beats, DrainOne(true), w, Expired());
    more, v := beats + [Flow(DrainOne(true))], w.(moves := w.moves + [DrainOne(true)]);
    Flows(target, startedAt, more, SeeDone, v, Emptied());
    more, v := more + [Flow(SeeDone)], v.(moves := v.moves + [SeeDone]);
    Flows(target, startedAt, more, DrainEnd(true), v, Emptied().(drain := Draining));
    more, v := more + [Flow(DrainEnd(true))], v.(moves := v.moves + [DrainEnd(true)]);
  }

  function Emptied(): Pipe {
    Expired().(chan := [], drained := [RaceExpired], published := [Payload(RaceExpired)])
  }

  lemma DrainMoves()
    ensures Enabled(Expired(), DrainOne(true)) && Next(Expired(), DrainOne(true)) == Emptied()
    ensures Next(Emptied(), SeeDone) == Emptied().(drain := Draining)
    ensures Next(Emptied().(drain := Draining), DrainEnd(true)) == Drained()
  {
    assert [RaceExpired][1..] == [];
  }

  lemma WatchCloses(target: int, startedAt: int, beats: seq<Beat>, w: World) returns (more: seq<Beat>, v: World)
    requires At(target, startedAt, beats, w, Drained())
    ensures At(target, startedAt, more, v, Ending(TAKEN)) && v == w.(moves := v.moves)
  {
    var p1 := Next(Drained(), HubTake);
    Flows(target, startedAt, beats, HubTake, w, Drained());
    more, v := beats + [Flow(HubTake)], w.(moves := w.moves + [HubTake]);
    Flows(target, startedAt, more, HubTake, v, p1);
    more, v := more + [Flow(HubTake)], v.(moves := v.moves + [HubTake]);
    assert Next(p1, HubTake) == Ending(TAKEN);
  }

  lemma WatchEnds(target: int, startedAt: int, beats: seq<Beat>, w: World) returns (more: seq<Beat>, v: World)
    requires At(target, startedAt, beats, w, Ending(TAKEN))
    ensures At(target, startedAt, more, v, Ending(SENT.(writer := Exited))) && v == w.(moves := v.moves)
  {
    EndingMoves();
    Flows(target, startedAt, beats, Write(0, true), w, Ending(TAKEN));
    more, v := beats + [Flow(Write(0, true))], w.(moves := w.moves + [Write(0, true)]);
    Flows(target, startedAt, more, SeeClosed(0), v, Ending(SENT));
    more, v := more + [Flow(SeeClosed(0))], v.(moves := v.moves + [SeeClosed(0)]);
    Flows(target, startedAt, more, WriterEnd(0), v, Ending(SENT.(writer := Draining)));
    more, v := more + [Flow(WriterEnd(0))], v.(moves := v.moves + [WriterEnd(0)]);
  }

  lemma EndingMoves()
    ensures Enabled(Ending(TAKEN), Write(0, true)) && Next(Ending(TAKEN), Write(0, true)) == Ending(SENT)
    ensures Enabled(Ending(SENT), SeeClosed(0)) && Next(Ending(SENT), SeeClosed(0)) == Ending(SENT.(writer := Draining))
    ensures var s := Ending(SENT.(writer := Draining));
      Enabled(s, WriterEnd(0)) && Next(s, WriterEnd(0)) == Ending(SENT.(writer := Exited))
  {
    var sent := TAKEN.(buf := TAKEN.buf[1..], written := TAKEN.written + [TAKEN.buf[0]]);
    assert sent == SENT;
    assert map[0 := TAKEN][0 := sent] == map[0 := SENT];
    assert map[0 := SENT][0 := SENT.(writer := Draining)] == map[0 := SENT.(writer := Draining)];
  }

  /** A room that nobody joins expires while one connection watches, and that one is
      told: a joint run as the main result asks for. */
  lemma SomeoneIsTold(target: int, startedAt: int) returns (beats: seq<Beat>)
    ensures Lives(target, startedAt, beats)
    ensures var w := WorldAfter(target, startedAt, beats);
      && CleanEnd(After(w.moves), 0) && !After(w.moves).lossy
      && After(w.moves).conns[0].since < After(w.moves).cancelAt
      && w.final <= |w.ins| && AcceptsLast(Run(Opened(target, startedAt), w.ins[..w.final]).trace)
      && After(w.moves).conns[0].written == [RaceExpired]
  {
    var w: World;
    beats, w := WatchExpires(target, startedAt);
    beats, w := WatchDrains(target, startedAt, beats, w);
    beats, w := WatchCloses(target, startedAt, beats, w);
    beats, w := WatchEnds(target, startedAt, beats, w);
    NoShowTrace(target, startedAt);
    assert w.ins[..1] == [NoShow()];
  }
}
