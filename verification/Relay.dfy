/** The loops of the delivery pipeline in place: every method is one turn of some
    goroutine's select, or one call on the hub, and is proved to be a move of
    Delivery.dfy.  Any interleaving of turns is thus a run of those moves. */
module Relay {
  import opened Options
  import opened RoomModel
  import opened Delivery

  datatype WriterPick = Data | Closed | Done

  /** Some case of the drain's select is ready, the done signal if it is to be picked. */
  predicate DrainReady(s: Pipe, seesDone: bool) {
    s.drain.Draining? || (s.drain.Running? && if seesDone then s.cancelled else |s.chan| > 0)
  }

  function DrainMove(s: Pipe, seesDone: bool, ok: bool): (m: Move)
    ensures DrainReady(s, seesDone) ==> Enabled(s, m)
  {
    if s.drain.Running? && seesDone then SeeDone else if |s.chan| > 0 then DrainOne(ok) else DrainEnd(ok)
  }

  predicate WriterReady(s: Pipe, c: ConnId, pick: WriterPick) {
    c in s.conns &&
    var k := s.conns[c];
    k.writer.Draining? ||
    (k.writer.Running? && match pick case Data => |k.buf| > 0 case Closed => !s.hub.Open? case Done => k.cut)
  }

  function WriterMove(s: Pipe, c: ConnId, pick: WriterPick, ok: bool): (m: Move)
    requires c in s.conns
    ensures WriterReady(s, c, pick) ==> Enabled(s, m)
  {
    var k := s.conns[c];
    if k.writer.Running? && pick == Closed then SeeClosed(c)
    else if k.writer.Running? && pick == Done then SeeCut(c)
    else if |k.buf| > 0 then Write(c, ok)
    else WriterEnd(c)
  }

  class Pipeline {
    var offered: seq<Frame>
    var drained: seq<Frame>
    var chan: seq<Frame>
    var cancelled: bool
    var cancelAt: nat
    var drain: Phase
    var published: seq<Envelope>
    var lossy: bool
    var closeCalls: nat
    var hubRead: nat
    var fanned: seq<Frame>
    var hub: HubState
    var conns: map<ConnId, Conn>

    function Value(): Pipe
      reads this
    {
      Pipe(offered, drained, chan, cancelled, cancelAt, drain, published, lossy, closeCalls,
           hubRead, fanned, hub, conns)
    }

    constructor ()
      ensures Value() == IDLE
    {
      offered, drained, chan := [], [], [];
      cancelled, cancelAt, drain := false, 0, Running;
      published, lossy, closeCalls := [], false, 0;
      hubRead, fanned, hub := 0, [], Open;
      conns := map[];
    }

    /** The actor's non-blocking send. */
    method Offer(f: Frame)
      modifies this`offered, this`chan
      ensures Value() == Next(old(Value()), Move.Offer(f))
    {
      offered := offered + [f];
      if |chan| < BROADCAST_BUFFER {
        chan := chan + [f];
      }
    }

    method Cancel()
      requires !cancelled
      modifies this`cancelled, this`cancelAt
      ensures Value() == Next(old(Value()), Move.Cancel)
    {
      cancelled, cancelAt := true, |drained| + |chan|;
    }

    method PublishOut(f: Frame, ok: bool)
      modifies this`published, this`lossy
      ensures published == (if ok then old(published) + [Payload(f)] else old(published))
      ensures lossy == (old(lossy) || !ok)
    {
      if ok {
        published := published + [Payload(f)];
      } else {
        lossy := true;
      }
    }

    /** One turn of drainBroadcast. While it runs, its select takes data or, if
        `seesDone`, the done signal; after that it takes data until there is none,
        and then publishes the end of the room. */
    method DrainBroadcast(seesDone: bool, ok: bool)
      requires DrainReady(Value(), seesDone)
      modifies this
      ensures Value() == Next(old(Value()), DrainMove(old(Value()), seesDone, ok))
    {
      if drain.Running? && seesDone {
        drain := Draining;
        return;
      }
      if |chan| > 0 {
        var f := chan[0];
        chan, drained := chan[1..], drained + [f];
        PublishOut(f, ok);
        return;
      }
      closeCalls := closeCalls + 1;
      if ok {
        published := published + [RoomClosed];
      } else {
        lossy := true;
      }
      drain := Exited;
    }

    method RegisterConn(c: ConnId)
      requires c !in conns
      modifies this`conns
      ensures Value() == Next(old(Value()), Register(c))
    {
      conns := conns[c := Conn(hub.Open?, |fanned|, |drained| + |chan|, [], [], false, false, Running)];
    }

    method UnregisterConn(c: ConnId)
      requires Enabled(Value(), Unregister(c))
      modifies this`conns
      ensures Value() == Next(old(Value()), Unregister(c))
    {
      conns := conns[c := conns[c].(registered := false)];
    }

    /** One frame to every registered connection, in whatever order the map yields
        them, without waiting for any. */
    method FanOut(f: Frame)
      modifies this`conns
      ensures conns == map c | c in old(conns) :: Deliver(old(conns)[c], f)
    {
      ghost var was := conns;
      var todo := conns.Keys;
      while todo != {}
        invariant conns.Keys == was.Keys && todo <= was.Keys
        invariant forall c :: c in was ==> conns[c] == if c in todo then was[c] else Deliver(was[c], f)
      {
        var c :| c in todo;
        if conns[c].registered {
          if |conns[c].buf| < CONN_BUFFER {
            conns := conns[c := conns[c].(buf := conns[c].buf + [f])];
          } else {
            conns := conns[c := conns[c].(overrun := true)];
          }
        }
        todo := todo - {c};
      }
    }

    /** The turn of the hub's loop that takes the next envelope off the bus. */
    method TakeEnvelope()
      requires hub.Open? && hubRead < |published|
      modifies this`hubRead, this`fanned, this`hub, this`conns
      ensures Value() == Next(old(Value()), HubTake)
    {
      var e := published[hubRead];
      hubRead := hubRead + 1;
      match e
      case Payload(f) =>
        fanned := fanned + [f];
        FanOut(f);
      case RoomClosed =>
        hub := ClosedByRoom;
    }

    /** Nobody is attached any more: the hub is told to stop. */
    method SignalStop()
      requires Enabled(Value(), HubStop)
      modifies this`hub
      ensures Value() == Next(old(Value()), HubStop)
    {
      hub := Stopped;
    }

    /** The subscription's channel is closed under the hub. */
    method LoseBus()
      requires hub.Open?
      modifies this`hub
      ensures Value() == Next(old(Value()), HubEnd)
    {
      hub := Ended;
    }

    /** A connection's context is cancelled: by its reader, or by a shutdown. */
    method CutConn(c: ConnId)
      requires c in conns && !conns[c].writer.Exited?
      modifies this`conns
      ensures Value() == Next(old(Value()), Cut(c))
    {
      conns := conns[c := conns[c].(cut := true)];
    }

    /** One turn of a connection's writer, told which ready signal its select picks
        while it runs; once the hub has closed it writes what is buffered and ends. */
    method WriteLoop(c: ConnId, pick: WriterPick, ok: bool)
      requires WriterReady(Value(), c, pick)
      modifies this`conns
      ensures Value() == Next(old(Value()), WriterMove(old(Value()), c, pick, ok))
    {
      var k := conns[c];
      if k.writer.Running? && pick == Closed {
        conns := conns[c := k.(writer := Draining)];
        return;
      }
      if k.writer.Running? && pick == Done {
        conns := conns[c := k.(writer := Exited)];
        return;
      }
      if |k.buf| > 0 {
        var msg := k.buf[0];
        k := k.(buf := k.buf[1..]);
        if !ok {
          conns := conns[c := k.(cut := true, writer := Exited)];
          return;
        }
        conns := conns[c := k.(written := k.written + [msg])];
        return;
      }
      conns := conns[c := k.(writer := Exited)];
    }
  }

  // --------------------------------------------------------- whole schedules

  /** What a scheduler may let happen next; a turn that is not ready is skipped. */
  datatype Turn =
    | ActorSends(frame: Frame)
    | ActorEnds
    | Drains(seesDone: bool, ok: bool)
    | Connects(c: ConnId)
    | Detaches(c: ConnId)
    | HubTakes
    | HubStops
    | BusEnds
    | Cuts(c: ConnId)
    | Writes(c: ConnId, pick: WriterPick, ok: bool)

  /** The move a turn makes, if it is ready. */
  function MoveOf(s: Pipe, t: Turn): (m: Option<Move>)
    ensures m.Some? ==> Enabled(s, m.value)
  {
    match t
    case ActorSends(f) => Some(Offer(f))
    case ActorEnds => if s.cancelled then None else Some(Cancel)
    case Drains(seesDone, ok) => if DrainReady(s, seesDone) then Some(DrainMove(s, seesDone, ok)) else None
    case Connects(c) => if c in s.conns then None else Some(Register(c))
    case Detaches(c) => if Enabled(s, Unregister(c)) then Some(Unregister(c)) else None
    case HubTakes => if Enabled(s, HubTake) then Some(HubTake) else None
    case HubStops => if Enabled(s, HubStop) then Some(HubStop) else None
    case BusEnds => if Enabled(s, HubEnd) then Some(HubEnd) else None
    case Cuts(c) => if Enabled(s, Cut(c)) then Some(Cut(c)) else None
    case Writes(c, pick, ok) => if WriterReady(s, c, pick) then Some(WriterMove(s, c, pick, ok)) else None
  }

  /** The moves of a schedule; they are always a run. */
  function MovesOf(turns: seq<Turn>): (moves: seq<Move>)
    ensures Runs(moves)
  {
    if |turns| == 0 then []
    else
      var before := MovesOf(turns[..|turns| - 1]);
      match MoveOf(After(before), turns[|turns| - 1])
      case None => before
      case Some(m) => Extend(before, m); before + [m]
  }

  /** Any schedule of the turns, of any length, takes the pipeline where its moves do,
      so that all that holds of runs of moves holds of the program's loops. */
  method Schedule(turns: seq<Turn>) returns (p: Pipeline)
    ensures fresh(p) && p.Value() == After(MovesOf(turns))
  {
    p := new Pipeline();
    var n := 0;
    while n < |turns|
      invariant n <= |turns| && fresh(p)
      invariant p.Value() == After(MovesOf(turns[..n]))
    {
      assert turns[..n + 1][..n] == turns[..n];
      ghost var moves := MovesOf(turns[..n]);
      ghost var m := MoveOf(After(moves), turns[n]);
      if m.Some? {
        Extend(moves, m.value);
      }
      Take(p, turns[n]);
      n := n + 1;
    }
    assert turns[..n] == turns;
  }

  method Take(p: Pipeline, t: Turn)
    modifies p
    ensures var m := MoveOf(old(p.Value()), t);
            p.Value() == if m.Some? then Next(old(p.Value()), m.value) else old(p.Value())
  {
    match t
    case ActorSends(f) => p.Offer(f);
    case ActorEnds => if !p.cancelled { p.Cancel(); }
    case Drains(seesDone, ok) => if DrainReady(p.Value(), seesDone) { p.DrainBroadcast(seesDone, ok); }
    case Connects(c) => if c !in p.conns { p.RegisterConn(c); }
    case Detaches(c) => if Enabled(p.Value(), Unregister(c)) { p.UnregisterConn(c); }
    case HubTakes => if p.hub.Open? && p.hubRead < |p.published| { p.TakeEnvelope(); }
    case HubStops => if Enabled(p.Value(), HubStop) { p.SignalStop(); }
    case BusEnds => if p.hub.Open? { p.LoseBus(); }
    case Cuts(c) => if Enabled(p.Value(), Cut(c)) { p.CutConn(c); }
    case Writes(c, pick, ok) => if WriterReady(p.Value(), c, pick) { p.WriteLoop(c, pick, ok); }
  }

  /** The turn that makes a move. */
  function TurnOf(m: Move): Turn {
    match m
    case Offer(f) => ActorSends(f)
    case Cancel => ActorEnds
    case DrainOne(ok) => Drains(false, ok)
    case SeeDone => Drains(true, true)
    case DrainEnd(ok) => Drains(false, ok)
    case Register(c) => Connects(c)
    case Unregister(c) => Detaches(c)
    case HubTake => HubTakes
    case HubStop => HubStops
    case HubEnd => BusEnds
    case Write(c, ok) => Writes(c, Data, ok)
    case SeeClosed(c) => Writes(c, Closed, true)
    case WriterEnd(c) => Writes(c, Data, true)
    case SeeCut(c) => Writes(c, Done, true)
    case Cut(c) => Cuts(c)
  }

  lemma TurnMakes(s: Pipe, m: Move)
    requires Enabled(s, m)
    ensures MoveOf(s, TurnOf(m)) == Some(m)
  {
  }

  /** And nothing is left out: every run of moves is the moves of some schedule. */
  lemma {:induction false} EveryRunIsScheduled(moves: seq<Move>) returns (turns: seq<Turn>)
    requires Runs(moves)
    ensures MovesOf(turns) == moves
  {
    if |moves| == 0 {
      turns := [];
    } else {
      var before, m := moves[..|moves| - 1], moves[|moves| - 1];
      var earlier := EveryRunIsScheduled(before);
      TurnMakes(After(before), m);
      turns := earlier + [TurnOf(m)];
      assert turns[..|turns| - 1] == earlier;
      assert before + [m] == moves;
    }
  }
}
