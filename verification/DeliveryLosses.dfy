/** Where frames get lost on their way from the actor to a socket, and nowhere else:
    told by the moves of the run, not by what the pipeline notes down about itself. */
module DeliveryLosses {
  import opened Delivery
  import opened RoomModel

  lemma EarlierMoves(moves: seq<Move>, n: nat)
    requires n < |moves|
    ensures moves[..|moves| - 1][..n] == moves[..n]
    ensures n < |moves| - 1 ==> moves[..|moves| - 1][n] == moves[n]
  {
  }

  lemma LastMove(moves: seq<Move>, m: Move)
    requires |moves| > 0
    ensures m in moves <==> m in moves[..|moves| - 1] || moves[|moves| - 1] == m
  {
    assert moves == moves[..|moves| - 1] + [moves[|moves| - 1]];
  }

  // ------------------------------------------------------- one move at a time

  /** The hub, about to take a frame, knows the connection and finds its buffer full. */
  predicate Refuses(s: Pipe, c: ConnId, m: Move) {
    && m.HubTake? && s.hubRead < |s.published| && s.published[s.hubRead].Payload?
    && c in s.conns && s.conns[c].registered && |s.conns[c].buf| >= 8
  }

  /** Or finds room in it. */
  predicate Serves(s: Pipe, c: ConnId, m: Move) {
    && m.HubTake? && s.hubRead < |s.published| && s.published[s.hubRead].Payload?
    && c in s.conns && s.conns[c].registered && |s.conns[c].buf| < 8
  }

  predicate Closes(s: Pipe, m: Move) {
    m.HubStop? || m.HubEnd? || (m.HubTake? && s.hubRead < |s.published| && s.published[s.hubRead].RoomClosed?)
  }

  predicate Overrun(s: Pipe, c: ConnId) {
    c in s.conns && s.conns[c].overrun
  }

  predicate IsCut(s: Pipe, c: ConnId) {
    c in s.conns && s.conns[c].cut
  }

  predicate Registered(s: Pipe, c: ConnId) {
    c in s.conns && s.conns[c].registered
  }

  predicate Small(s: Pipe, c: ConnId) {
    c in s.conns ==> |s.conns[c].buf| <= 8
  }

  lemma OverrunAfter(s: Pipe, m: Move, c: ConnId)
    requires Enabled(s, m)
    ensures Overrun(Next(s, m), c) <==> Overrun(s, c) || Refuses(s, c, m)
    ensures Small(s, c) ==> Small(Next(s, m), c)
  {
  }

  lemma CutAfter(s: Pipe, m: Move, c: ConnId)
    requires Enabled(s, m)
    ensures IsCut(Next(s, m), c) <==> IsCut(s, c) || m == Cut(c) || m == Write(c, false)
  {
  }

  lemma RegisteredAfter(s: Pipe, m: Move, c: ConnId)
    requires Enabled(s, m)
    ensures Registered(Next(s, m), c) <==>
            (Registered(s, c) && m != Unregister(c)) || (m == Register(c) && s.hub.Open?)
  {
  }

  lemma UpstreamAfter(s: Pipe, m: Move)
    requires Enabled(s, m)
    ensures Next(s, m).lossy <==> s.lossy || m == DrainOne(false) || m == DrainEnd(false)
    ensures Next(s, m).cancelled <==> s.cancelled || m == Cancel
    ensures Next(s, m).hub.Open? <==> s.hub.Open? && !Closes(s, m)
  {
  }

  // ------------------------------------------------------------- whole runs

  ghost predicate RefusedAt(moves: seq<Move>, c: ConnId, n: nat) {
    n < |moves| && Runs(moves[..n]) && Refuses(After(moves[..n]), c, moves[n])
  }

  ghost predicate ClosedAt(moves: seq<Move>, n: nat) {
    n < |moves| && Runs(moves[..n]) && Closes(After(moves[..n]), moves[n])
  }

  /** Registered while the hub was open, and not unregistered since. */
  ghost predicate JoinedAt(moves: seq<Move>, c: ConnId, n: nat) {
    && n < |moves| && moves[n] == Register(c) && Runs(moves[..n]) && After(moves[..n]).hub.Open?
    && Unregister(c) !in moves[n..]
  }

  /** A connection is overrun if and only if, at some time before, the hub took a frame
      while it knew the connection and eight frames were already waiting for it. */
  lemma {:induction false} OverrunIff(moves: seq<Move>, c: ConnId)
    requires Runs(moves)
    ensures Overrun(After(moves), c) <==> exists n: nat :: RefusedAt(moves, c, n)
    ensures Small(After(moves), c)
  {
    if |moves| > 0 {
      var before, m := moves[..|moves| - 1], moves[|moves| - 1];
      OverrunIff(before, c);
      OverrunAfter(After(before), m, c);
      if Overrun(After(before), c) {
        var n: nat :| RefusedAt(before, c, n);
        EarlierMoves(moves, n);
        assert RefusedAt(moves, c, n);
      } else if Refuses(After(before), c, m) {
        assert RefusedAt(moves, c, |before|);
      } else if n: nat :| RefusedAt(moves, c, n) {
        EarlierMoves(moves, n);
        assert n < |before| ==> RefusedAt(before, c, n);
      }
    }
  }

  /** Cut if and only if its context was cancelled or a write to it failed. */
  lemma {:induction false} CutIff(moves: seq<Move>, c: ConnId)
    requires Runs(moves)
    ensures IsCut(After(moves), c) <==> Cut(c) in moves || Write(c, false) in moves
  {
    if |moves| > 0 {
      var before, m := moves[..|moves| - 1], moves[|moves| - 1];
      CutIff(before, c);
      CutAfter(After(before), m, c);
      LastMove(moves, Cut(c));
      LastMove(moves, Write(c, false));
    }
  }

  /** A frame or the end of the room is missing on the bus if and only if its publish failed. */
  lemma {:induction false} LossyIff(moves: seq<Move>)
    requires Runs(moves)
    ensures After(moves).lossy <==> DrainOne(false) in moves || DrainEnd(false) in moves
    ensures After(moves).cancelled <==> Cancel in moves
  {
    if |moves| > 0 {
      var before, m := moves[..|moves| - 1], moves[|moves| - 1];
      LossyIff(before);
      UpstreamAfter(After(before), m);
      LastMove(moves, DrainOne(false));
      LastMove(moves, DrainEnd(false));
      LastMove(moves, Cancel);
    }
  }

  /** The hub is open until it is stopped, loses the bus, or takes the end of the room. */
  lemma {:induction false} OpenIff(moves: seq<Move>)
    requires Runs(moves)
    ensures After(moves).hub.Open? <==> !exists n: nat :: ClosedAt(moves, n)
  {
    if |moves| > 0 {
      var before, m := moves[..|moves| - 1], moves[|moves| - 1];
      OpenIff(before);
      UpstreamAfter(After(before), m);
      if !After(before).hub.Open? {
        var n: nat :| ClosedAt(before, n);
        EarlierMoves(moves, n);
        assert ClosedAt(moves, n);
      } else if Closes(After(before), m) {
        assert ClosedAt(moves, |before|);
      } else if n: nat :| ClosedAt(moves, n) {
        EarlierMoves(moves, n);
        assert n < |before| ==> ClosedAt(before, n);
      }
    }
  }

  lemma TailOf(moves: seq<Move>, n: nat, m: Move)
    requires n < |moves| - 1
    ensures m in moves[n..] <==> m in moves[..|moves| - 1][n..] || moves[|moves| - 1] == m
  {
    assert moves[n..] == moves[..|moves| - 1][n..] + [moves[|moves| - 1]];
  }

  lemma JoinedBefore(moves: seq<Move>, c: ConnId, n: nat)
    requires n < |moves| - 1
    ensures JoinedAt(moves, c, n) <==> JoinedAt(moves[..|moves| - 1], c, n) && moves[|moves| - 1] != Unregister(c)
  {
    EarlierMoves(moves, n);
    TailOf(moves, n, Unregister(c));
  }

  ghost predicate Joined(moves: seq<Move>, c: ConnId) {
    exists n: nat :: JoinedAt(moves, c, n)
  }

  lemma JoinsNow(moves: seq<Move>, c: ConnId)
    requires Runs(moves) && |moves| > 0 && moves[|moves| - 1] == Register(c)
    ensures JoinedAt(moves, c, |moves| - 1) <==> After(moves[..|moves| - 1]).hub.Open?
  {
    assert moves[|moves| - 1..] == [Register(c)];
  }

  lemma StaysJoined(moves: seq<Move>, c: ConnId)
    requires |moves| > 0 && moves[|moves| - 1] != Unregister(c) && Joined(moves[..|moves| - 1], c)
    ensures Joined(moves, c)
  {
    var n: nat :| JoinedAt(moves[..|moves| - 1], c, n);
    JoinedBefore(moves, c, n);
  }

  lemma WasJoined(moves: seq<Move>, c: ConnId)
    requires Runs(moves) && |moves| > 0 && Joined(moves, c)
    ensures var before, m := moves[..|moves| - 1], moves[|moves| - 1];
      (Joined(before, c) && m != Unregister(c)) || (m == Register(c) && After(before).hub.Open?)
  {
    var n: nat :| JoinedAt(moves, c, n);
    if n < |moves| - 1 {
      JoinedBefore(moves, c, n);
    } else {
      JoinsNow(moves, c);
    }
  }

  /** The hub knows a connection if and only if it registered while the hub was open
      and has not unregistered since. */
  lemma {:induction false} RegisteredIff(moves: seq<Move>, c: ConnId)
    requires Runs(moves)
    ensures Registered(After(moves), c) <==> Joined(moves, c)
  {
    if |moves| > 0 {
      RegisteredIff(moves[..|moves| - 1], c);
      RegisteredAfter(After(moves[..|moves| - 1]), moves[|moves| - 1], c);
      if Joined(moves, c) {
        WasJoined(moves, c);
      } else if Registered(After(moves), c) {
        if moves[|moves| - 1] == Register(c) {
          JoinsNow(moves, c);
        } else {
          StaysJoined(moves, c);
        }
      }
    }
  }

  // --------------------------------------------------- the actor's channel

  function Offered(moves: seq<Move>): seq<Frame> {
    if |moves| == 0 then []
    else Offered(moves[..|moves| - 1]) + (if moves[|moves| - 1].Offer? then [moves[|moves| - 1].frame] else [])
  }

  ghost predicate TurnedAwayAt(moves: seq<Move>, n: nat) {
    n < |moves| && moves[n].Offer? && Runs(moves[..n]) && |After(moves[..n]).chan| >= 16
  }

  ghost predicate SomeTurnedAway(moves: seq<Move>) {
    exists n: nat :: TurnedAwayAt(moves, n)
  }

  lemma TurnedAwayStays(moves: seq<Move>)
    requires |moves| > 0 && SomeTurnedAway(moves[..|moves| - 1])
    ensures SomeTurnedAway(moves)
  {
    var n: nat :| TurnedAwayAt(moves[..|moves| - 1], n);
    EarlierMoves(moves, n);
    assert TurnedAwayAt(moves, n);
  }

  lemma WasTurnedAway(moves: seq<Move>)
    requires Runs(moves) && |moves| > 0 && SomeTurnedAway(moves)
    ensures SomeTurnedAway(moves[..|moves| - 1]) || TurnedAwayAt(moves, |moves| - 1)
  {
    var n: nat :| TurnedAwayAt(moves, n);
    if n < |moves| - 1 {
      EarlierMoves(moves, n);
      assert TurnedAwayAt(moves[..|moves| - 1], n);
    }
  }

  lemma ChannelOffers(s: Pipe, m: Move)
    requires Enabled(s, m)
    ensures Next(s, m).offered == s.offered + (if m.Offer? then [m.frame] else [])
    ensures |s.chan| <= 16 ==> |Next(s, m).chan| <= 16
  {
  }

  lemma ChannelMoves(s: Pipe, m: Move)
    requires Enabled(s, m) && |s.chan| <= 16
    ensures |Accepted(Next(s, m))| == |Accepted(s)| + (if m.Offer? && |s.chan| < 16 then 1 else 0)
  {
  }

  /** The actor's broadcasts are all accepted if and only if none came while sixteen
      frames were waiting in its channel. */
  lemma ChannelLosesIff(moves: seq<Move>)
    requires Runs(moves)
    ensures |After(moves).chan| <= 16 && After(moves).offered == Offered(moves)
    ensures Accepted(After(moves)) == Offered(moves) <==> !SomeTurnedAway(moves)
  {
    ChannelLosesCount(moves);
    PipeAlways(moves);
    SubseqShort(Accepted(After(moves)), After(moves).offered);
  }

  lemma {:induction false} ChannelLosesCount(moves: seq<Move>)
    requires Runs(moves)
    ensures |After(moves).chan| <= 16 && After(moves).offered == Offered(moves)
    ensures |Accepted(After(moves))| <= |Offered(moves)|
    ensures |Accepted(After(moves))| == |Offered(moves)| <==> !SomeTurnedAway(moves)
  {
    if |moves| > 0 {
      var before, m := moves[..|moves| - 1], moves[|moves| - 1];
      ChannelLosesCount(before);
      ChannelOffers(After(before), m);
      ChannelMoves(After(before), m);
      if SomeTurnedAway(before) {
        TurnedAwayStays(moves);
      } else if SomeTurnedAway(moves) {
        WasTurnedAway(moves);
      } else {
        assert !TurnedAwayAt(moves, |before|);
      }
    }
  }

  // ------------------------------------------------------ what a socket gets

  /** The frames that the hub took while it knew the connection and fewer than eight
      were waiting for it. */
  ghost function Served(moves: seq<Move>, c: ConnId): seq<Frame>
    requires Runs(moves)
  {
    if |moves| == 0 then []
    else
      var before := moves[..|moves| - 1];
      var s := After(before);
      Served(before, c) + (if Serves(s, c, moves[|moves| - 1]) then [s.published[s.hubRead].frame] else [])
  }

  /** The connection holds the frames served but those written, and but the one whose
      write failed. */
  ghost predicate Holds(k: Conn, served: seq<Frame>, failed: bool) {
    && (!failed ==> k.written + k.buf == served)
    && (failed ==> k.writer.Exited? && |k.written| + 1 + |k.buf| == |served|
                   && k.written + [served[|k.written|]] + k.buf == served)
  }

  lemma ServeHolds(k: Conn, served: seq<Frame>, failed: bool, f: Frame)
    requires Holds(k, served, failed)
    ensures Holds(k.(buf := k.buf + [f]), served + [f], failed)
  {
    if failed {
      assert k.written + [served[|k.written|]] + (k.buf + [f]) == served + [f];
    } else {
      assert k.written + (k.buf + [f]) == served + [f];
    }
  }

  lemma WriteHolds(k: Conn, served: seq<Frame>)
    requires Holds(k, served, false) && |k.buf| > 0
    ensures Holds(k.(buf := k.buf[1..], written := k.written + [k.buf[0]]), served, false)
    ensures Holds(k.(buf := k.buf[1..], cut := true, writer := Exited), served, true)
  {
    assert k.buf == [k.buf[0]] + k.buf[1..];
    assert served[|k.written|] == k.buf[0];
  }

  ghost predicate HoldsNow(s: Pipe, c: ConnId, served: seq<Frame>, failed: bool) {
    if c in s.conns then Holds(s.conns[c], served, failed) else served == [] && !failed
  }

  lemma HoldsAfter(s: Pipe, m: Move, c: ConnId, served: seq<Frame>, failed: bool)
    requires Enabled(s, m) && HoldsNow(s, c, served, failed)
    ensures HoldsNow(Next(s, m), c,
                     served + (if Serves(s, c, m) then [s.published[s.hubRead].frame] else []),
                     failed || m == Write(c, false))
  {
    if Serves(s, c, m) {
      ServeHolds(s.conns[c], served, failed, s.published[s.hubRead].frame);
    } else {
      assert served + [] == served;
      if m.Write? && m.c == c {
        WriteHolds(s.conns[c], served);
      } else {
        OthersHold(s, m, c, served, failed);
      }
    }
  }

  lemma OthersHold(s: Pipe, m: Move, c: ConnId, served: seq<Frame>, failed: bool)
    requires Enabled(s, m) && HoldsNow(s, c, served, failed)
    requires !Serves(s, c, m) && !(m.Write? && m.c == c)
    ensures HoldsNow(Next(s, m), c, served, failed)
  {
    FramesKept(s, m, c);
  }

  lemma FramesKept(s: Pipe, m: Move, c: ConnId)
    requires Enabled(s, m) && !Serves(s, c, m) && !(m.Write? && m.c == c)
    ensures c in s.conns ==> c in Next(s, m).conns
    ensures c in s.conns ==> var k, l := s.conns[c], Next(s, m).conns[c];
      l.buf == k.buf && l.written == k.written && (k.writer.Exited? ==> l.writer.Exited?)
    ensures c !in s.conns && c in Next(s, m).conns ==>
            Next(s, m).conns[c].buf == [] && Next(s, m).conns[c].written == []
  {
  }

  /** In every run, what a connection has been sent and what waits for it are exactly the
      frames served to it, in order; if a write failed, just that frame is missing. */
  lemma {:induction false} HoldsWhatIsServed(moves: seq<Move>, c: ConnId)
    requires Runs(moves)
    ensures HoldsNow(After(moves), c, Served(moves, c), Write(c, false) in moves)
  {
    if |moves| > 0 {
      var before, m := moves[..|moves| - 1], moves[|moves| - 1];
      HoldsWhatIsServed(before, c);
      HoldsAfter(After(before), m, c, Served(before, c), Write(c, false) in before);
      LastMove(moves, Write(c, false));
    }
  }

  lemma {:induction false} FromRegistration(moves: seq<Move>, c: ConnId, n: nat)
    requires Runs(moves) && n < |moves| && moves[n] == Register(c)
    ensures Runs(moves[..n]) && c in After(moves).conns
    ensures After(moves).conns[c].from == |After(moves[..n]).fanned|
    ensures After(moves).conns[c].since == |Accepted(After(moves[..n]))|
    decreases |moves|
  {
    var before, m := moves[..|moves| - 1], moves[|moves| - 1];
    EarlierMoves(moves, n);
    if n < |before| {
      FromRegistration(before, c, n);
      FromStays(After(before), m, c);
    }
  }

  lemma FromStays(s: Pipe, m: Move, c: ConnId)
    requires Enabled(s, m) && c in s.conns
    ensures c in Next(s, m).conns
    ensures Next(s, m).conns[c].from == s.conns[c].from && Next(s, m).conns[c].since == s.conns[c].since
  {
  }

  lemma AcceptedGrows(s: Pipe, m: Move)
    requires Enabled(s, m)
    ensures Accepted(s) <= Accepted(Next(s, m))
  {
    var t := Next(s, m);
    if m.DrainOne? {
      assert Accepted(t) == Accepted(s);
    } else {
      assert t.drained == s.drained && s.chan <= t.chan;
    }
  }

  lemma CancelsOnce(s: Pipe, m: Move)
    requires Enabled(s, m)
    ensures if s.cancelled then Next(s, m).cancelled && Next(s, m).cancelAt == s.cancelAt
            else Next(s, m).cancelled <==> m == Cancel
    ensures m == Cancel ==> !s.cancelled && Next(s, m).cancelAt == |Accepted(s)|
  {
  }

  lemma {:induction false} CancelledAt(moves: seq<Move>, n: nat)
    requires Runs(moves) && n < |moves| && moves[n] == Cancel
    ensures Runs(moves[..n]) && After(moves).cancelled
    ensures After(moves).cancelAt == |Accepted(After(moves[..n]))|
    ensures Accepted(After(moves[..n])) <= Accepted(After(moves))
    decreases |moves|
  {
    var before, m := moves[..|moves| - 1], moves[|moves| - 1];
    EarlierMoves(moves, n);
    AcceptedGrows(After(before), m);
    CancelsOnce(After(before), m);
    if n < |before| {
      CancelledAt(before, n);
    }
  }

  /** All that was accepted before the cancellation has been drained once the drain is over. */
  lemma DrainedByTheEnd(moves: seq<Move>, n: nat)
    requires Runs(moves) && n < |moves| && moves[n] == Cancel && After(moves).drain.Exited?
    ensures Runs(moves[..n]) && Accepted(After(moves[..n])) <= After(moves).drained
  {
    CancelledAt(moves, n);
    PipeAlways(moves);
    DrainedFirst(After(moves), Accepted(After(moves[..n])));
  }

  lemma DrainedFirst(s: Pipe, fs: seq<Frame>)
    requires fs <= Accepted(s) && |fs| <= |s.drained|
    ensures fs <= s.drained
  {
  }

  /** So a connection whose room closed the hub, whose writer is over, that was never cut,
      no write to which failed, and for which eight frames never waited when another came,
      has been sent every published frame but those fanned out before it registered. */
  lemma NothingLost(moves: seq<Move>, c: ConnId, n: nat)
    requires Runs(moves) && n < |moves| && moves[n] == Register(c)
    requires Cut(c) !in moves && Write(c, false) !in moves && !exists j: nat :: RefusedAt(moves, c, j)
    requires After(moves).hub.ClosedByRoom? && c in After(moves).conns && After(moves).conns[c].writer.Exited?
    ensures Runs(moves[..n]) && |After(moves[..n]).fanned| <= |Frames(After(moves).published)|
    ensures After(moves).conns[c].written == Frames(After(moves).published)[|After(moves[..n]).fanned|..]
  {
    OverrunIff(moves, c);
    CutIff(moves, c);
    FromRegistration(moves, c, n);
    EverythingDelivered(moves, c);
  }
}
