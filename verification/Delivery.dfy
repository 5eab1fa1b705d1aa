/** From the actor's broadcast channel to the sockets: the drain, the ordered bus,
    the hub's fan-out and every connection's writer, as steps that may interleave
    in any way. */
module Delivery {
  import opened RoomModel
  import opened Sums

  type ConnId = nat

  const BROADCAST_BUFFER: nat := 16
  const CONN_BUFFER: nat := 8

  /** A loop that selects between data and a done signal: it runs, then drains what
      is buffered, then is over. */
  datatype Phase = Running | Draining | Exited

  datatype Envelope = Payload(frame: Frame) | RoomClosed

  datatype HubState = Open | ClosedByRoom | Stopped | Ended

  datatype Conn = Conn(
    registered: bool,      // known to the hub's fan-out
    from: nat,             // frames the hub had fanned out when it registered
    since: nat,            // frames the actor had enqueued by then
    buf: seq<Frame>,
    written: seq<Frame>,
    overrun: bool,         // some frame was dropped because buf was full
    cut: bool,             // its own context was cancelled, or a write failed
    writer: Phase)

  datatype Pipe = Pipe(
    offered: seq<Frame>,   // every frame the actor broadcast
    drained: seq<Frame>,   // those its channel had room for and the drain has taken
    chan: seq<Frame>,      // those still in the channel
    cancelled: bool,
    cancelAt: nat,         // frames enqueued when the room was cancelled
    drain: Phase,
    published: seq<Envelope>,
    lossy: bool,           // some publish failed
    closeCalls: nat,
    hubRead: nat,          // envelopes the hub has received
    fanned: seq<Frame>,    // frames it has fanned out
    hub: HubState,
    conns: map<ConnId, Conn>)

  const IDLE := Pipe([], [], [], false, 0, Running, [], false, 0, 0, [], Open, map[])

  datatype Move =
    | Offer(frame: Frame)
    | Cancel
    | DrainOne(ok: bool)
    | SeeDone
    | DrainEnd(ok: bool)
    | Register(c: ConnId)
    | Unregister(c: ConnId)
    | HubTake
    | HubStop
    | HubEnd
    | Write(c: ConnId, ok: bool)
    | SeeClosed(c: ConnId)
    | WriterEnd(c: ConnId)
    | SeeCut(c: ConnId)
    | Cut(c: ConnId)

  function Frames(es: seq<Envelope>): seq<Frame> {
    if |es| == 0 then []
    else Frames(es[..|es| - 1]) + (if es[|es| - 1].Payload? then [es[|es| - 1].frame] else [])
  }

  /** Every frame that got into the actor's channel. */
  function Accepted(s: Pipe): seq<Frame> {
    s.drained + s.chan
  }

  predicate Enabled(s: Pipe, m: Move) {
    match m
    case Offer(_) => true
    case Cancel => !s.cancelled
    case DrainOne(_) => !s.drain.Exited? && |s.chan| > 0
    case SeeDone => s.drain.Running? && s.cancelled
    case DrainEnd(_) => s.drain.Draining? && |s.chan| == 0
    case Register(c) => c !in s.conns
    case Unregister(c) => c in s.conns && s.conns[c].registered && s.conns[c].writer.Exited?
    case HubTake => s.hub.Open? && s.hubRead < |s.published|
    case HubStop => s.hub.Open? && forall c :: c in s.conns ==> !s.conns[c].registered
    case HubEnd => s.hub.Open?
    case Write(c, _) => c in s.conns && !s.conns[c].writer.Exited? && |s.conns[c].buf| > 0
    case SeeClosed(c) => c in s.conns && s.conns[c].writer.Running? && !s.hub.Open?
    case WriterEnd(c) => c in s.conns && s.conns[c].writer.Draining? && |s.conns[c].buf| == 0
    case SeeCut(c) => c in s.conns && s.conns[c].writer.Running? && s.conns[c].cut
    case Cut(c) => c in s.conns && !s.conns[c].writer.Exited?
  }

  /** The hub's non-blocking send to one connection. */
  function Deliver(k: Conn, f: Frame): Conn {
    if !k.registered then k
    else if |k.buf| < CONN_BUFFER then k.(buf := k.buf + [f])
    else k.(overrun := true)
  }

  function Next(s: Pipe, m: Move): Pipe
    requires Enabled(s, m)
  {
    match m
    case Offer(f) =>
      var t := s.(offered := s.offered + [f]);
      if |s.chan| < BROADCAST_BUFFER then t.(chan := s.chan + [f]) else t
    case Cancel => s.(cancelled := true, cancelAt := |s.drained| + |s.chan|)
    case DrainOne(ok) =>
      var t := s.(chan := s.chan[1..], drained := s.drained + [s.chan[0]]);
      if ok then t.(published := s.published + [Payload(s.chan[0])]) else t.(lossy := true)
    case SeeDone => s.(drain := Draining)
    case DrainEnd(ok) =>
      var t := s.(drain := Exited, closeCalls := s.closeCalls + 1);
      if ok then t.(published := s.published + [RoomClosed]) else t.(lossy := true)
    case Register(c) =>
      s.(conns := s.conns[c := Conn(s.hub.Open?, |s.fanned|, |s.drained| + |s.chan|, [], [], false, false, Running)])
    case Unregister(c) => s.(conns := s.conns[c := s.conns[c].(registered := false)])
    case HubTake =>
      var e := s.published[s.hubRead];
      var t := s.(hubRead := s.hubRead + 1);
      if e.Payload? then
        t.(fanned := s.fanned + [e.frame], conns := map c | c in s.conns :: Deliver(s.conns[c], e.frame))
      else t.(hub := ClosedByRoom)
    case HubStop => s.(hub := Stopped)
    case HubEnd => s.(hub := Ended)
    case Write(c, ok) =>
      var k := s.conns[c];
      var t := k.(buf := k.buf[1..]);
      s.(conns := s.conns[c := if ok then t.(written := k.written + [k.buf[0]])
                               else t.(cut := true, writer := Exited)])
    case SeeClosed(c) => s.(conns := s.conns[c := s.conns[c].(writer := Draining)])
    case WriterEnd(c) => s.(conns := s.conns[c := s.conns[c].(writer := Exited)])
    case SeeCut(c) => s.(conns := s.conns[c := s.conns[c].(writer := Exited)])
    case Cut(c) => s.(conns := s.conns[c := s.conns[c].(cut := true)])
  }

  predicate Runs(moves: seq<Move>)
    decreases |moves|, 0
  {
    |moves| == 0 ||
    (Runs(moves[..|moves| - 1]) && Enabled(After(moves[..|moves| - 1]), moves[|moves| - 1]))
  }

  /** The state after these moves; every one of them must have been possible. */
  function After(moves: seq<Move>): Pipe
    requires Runs(moves)
    decreases |moves|, 1
  {
    if |moves| == 0 then IDLE else Next(After(moves[..|moves| - 1]), moves[|moves| - 1])
  }

  // ------------------------------------------------------------ subsequences

  /** a is b with some elements left out, in order. */
  predicate Subseq(a: seq<Frame>, b: seq<Frame>) {
    if |a| == 0 then true
    else if |b| == 0 then false
    else
      || (a[|a| - 1] == b[|b| - 1] && Subseq(a[..|a| - 1], b[..|b| - 1]))
      || Subseq(a, b[..|b| - 1])
  }

  lemma SubseqKeep(a: seq<Frame>, b: seq<Frame>, f: Frame)
    requires Subseq(a, b)
    ensures Subseq(a + [f], b + [f])
  {
    assert (a + [f])[..|a|] == a && (b + [f])[..|b|] == b;
  }

  lemma SubseqSkip(a: seq<Frame>, b: seq<Frame>, f: Frame)
    requires Subseq(a, b)
    ensures Subseq(a, b + [f])
  {
    assert (b + [f])[..|b|] == b;
  }

  lemma {:induction false} SubseqSelf(a: seq<Frame>)
    ensures Subseq(a, a)
  {
    if |a| > 0 { SubseqSelf(a[..|a| - 1]); }
  }

  lemma {:induction false} SubseqTrans(a: seq<Frame>, b: seq<Frame>, c: seq<Frame>)
    requires Subseq(a, b) && Subseq(b, c)
    ensures Subseq(a, c)
    decreases |a| + |b| + |c|
  {
    if |a| > 0 {
      var b', c' := b[..|b| - 1], c[..|c| - 1];
      if Subseq(b, c') {
        SubseqTrans(a, b, c');
      } else if Subseq(a, b') {
        SubseqTrans(a, b', c');
      } else {
        SubseqTrans(a[..|a| - 1], b', c');
      }
    }
  }

  lemma {:induction false} SubseqPrefix(a: seq<Frame>, b: seq<Frame>, n: nat)
    requires n <= |b| && Subseq(a, b[..n])
    ensures Subseq(a, b)
    decreases |b| - n
  {
    if n == |b| {
      assert b[..n] == b;
    } else {
      assert b[..n + 1][..n] == b[..n];
      SubseqPrefix(a, b, n + 1);
    }
  }

  lemma {:induction false} SubseqSuffix(b: seq<Frame>, n: nat)
    requires n <= |b|
    ensures Subseq(b[n..], b)
  {
    if n < |b| {
      var c := b[..|b| - 1];
      assert b[n..][..|b| - n - 1] == c[n..];
      SubseqSuffix(c, n);
    }
  }

  lemma {:induction false} SubseqDropTail(a: seq<Frame>, n: nat, b: seq<Frame>)
    requires n <= |a| && Subseq(a, b)
    ensures Subseq(a[..n], b)
  {
    SubseqSelf(a[..n]);
    SubseqPrefix(a[..n], a, n);
    SubseqTrans(a[..n], a, b);
  }

  lemma FramesPush(es: seq<Envelope>, e: Envelope)
    ensures Frames(es + [e]) == Frames(es) + (if e.Payload? then [e.frame] else [])
  {
    assert (es + [e])[..|es|] == es;
  }

  lemma {:induction false} SubseqShort(a: seq<Frame>, b: seq<Frame>)
    requires Subseq(a, b)
    ensures |a| <= |b|
    ensures |a| == |b| ==> a == b
    decreases |b|
  {
    if |a| > 0 {
      var a', b' := a[..|a| - 1], b[..|b| - 1];
      if Subseq(a, b') {
        SubseqShort(a, b');
      } else {
        SubseqShort(a', b');
        assert a == a' + [a[|a| - 1]] && b == b' + [b[|b| - 1]];
      }
    }
  }

  // -------------------------------------------------- actor, channel, drain

  /** Frames enter the channel in the order they are broadcast. */
  predicate AcceptedInOrder(s: Pipe) {
    Subseq(Accepted(s), s.offered)
  }

  lemma AcceptedAfter(s: Pipe, m: Move)
    requires AcceptedInOrder(s) && Enabled(s, m)
    ensures AcceptedInOrder(Next(s, m))
  {
    var t := Next(s, m);
    if m.Offer? {
      OfferKeeps(s, m.frame);
    } else {
      assert Accepted(t) == Accepted(s) && t.offered == s.offered;
    }
  }

  lemma OfferKeeps(s: Pipe, f: Frame)
    requires AcceptedInOrder(s)
    ensures AcceptedInOrder(Next(s, Offer(f)))
  {
    if |s.chan| < BROADCAST_BUFFER {
      SubseqKeep(Accepted(s), s.offered, f);
      assert s.drained + (s.chan + [f]) == Accepted(s) + [f];
    } else {
      SubseqSkip(Accepted(s), s.offered, f);
    }
  }

  ghost predicate ChannelInv(s: Pipe) {
    && |s.chan| <= BROADCAST_BUFFER
    && (s.cancelled ==> s.cancelAt <= |s.drained| + |s.chan|)
    && (!s.drain.Running? ==> s.cancelled)
    && (s.drain.Exited? ==> s.cancelAt <= |s.drained|)
    && s.closeCalls == (if s.drain.Exited? then 1 else 0)
  }

  lemma ChannelAfter(s: Pipe, m: Move)
    requires ChannelInv(s) && Enabled(s, m)
    ensures ChannelInv(Next(s, m))
  {
  }

  // ------------------------------------------------------------------ the bus

  /** The bus carries drained frames in order, all of them if no publish fails. */
  predicate PublishedInOrder(s: Pipe) {
    Subseq(Frames(s.published), s.drained) && (!s.lossy ==> Frames(s.published) == s.drained)
  }

  /** And at the very end, once, the mark. */
  ghost predicate MarkInv(s: Pipe) {
    && (forall k :: 0 <= k < |s.published| && s.published[k].RoomClosed? ==>
          k == |s.published| - 1 && s.drain.Exited?)
    && (s.drain.Exited? && !s.lossy ==> |s.published| > 0 && s.published[|s.published| - 1].RoomClosed?)
  }

  lemma PublishedAfter(s: Pipe, m: Move)
    requires PublishedInOrder(s) && Enabled(s, m)
    ensures PublishedInOrder(Next(s, m))
  {
    var t := Next(s, m);
    if m.DrainOne? {
      DrainOneKeeps(s, m.ok);
    } else if m.DrainEnd? {
      FramesPush(s.published, RoomClosed);
      assert Frames(t.published) == Frames(s.published);
    } else {
      assert t.published == s.published && t.drained == s.drained && t.lossy == s.lossy;
    }
  }

  lemma DrainOneKeeps(s: Pipe, ok: bool)
    requires PublishedInOrder(s) && |s.chan| > 0 && !s.drain.Exited?
    ensures PublishedInOrder(Next(s, DrainOne(ok)))
  {
    var f := s.chan[0];
    if ok {
      FramesPush(s.published, Payload(f));
      SubseqKeep(Frames(s.published), s.drained, f);
    } else {
      SubseqSkip(Frames(s.published), s.drained, f);
    }
  }

  lemma MarkAfter(s: Pipe, m: Move)
    requires MarkInv(s) && Enabled(s, m)
    ensures MarkInv(Next(s, m))
  {
  }

  ghost predicate HubInv(s: Pipe) {
    && s.hubRead <= |s.published|
    && s.fanned == Frames(s.published[..s.hubRead])
    && (s.hub.Open? ==> forall k :: 0 <= k < s.hubRead ==> s.published[k].Payload?)
    && (s.hub.ClosedByRoom? ==> s.hubRead == |s.published| && |s.published| > 0 && s.drain.Exited?)
  }

  lemma HubAfter(s: Pipe, m: Move)
    requires MarkInv(s) && HubInv(s) && Enabled(s, m)
    ensures HubInv(Next(s, m))
  {
    if m.HubTake? {
      HubTakes(s);
    } else {
      HubWaits(s, m);
    }
  }

  lemma HubTakes(s: Pipe)
    requires MarkInv(s) && HubInv(s) && Enabled(s, HubTake)
    ensures HubInv(Next(s, HubTake))
  {
    var e := s.published[s.hubRead];
    assert s.published[..s.hubRead + 1] == s.published[..s.hubRead] + [e];
    FramesPush(s.published[..s.hubRead], e);
  }

  lemma HubWaits(s: Pipe, m: Move)
    requires HubInv(s) && Enabled(s, m) && !m.HubTake?
    ensures HubInv(Next(s, m))
  {
    var t := Next(s, m);
    assert t.hubRead == s.hubRead && t.fanned == s.fanned && (t.hub.Open? ==> s.hub.Open?);
    assert s.published <= t.published;
    assert t.published[..t.hubRead] == s.published[..s.hubRead];
  }

  // ---------------------------------------------------------- the connections

  ghost predicate Received(held: seq<Frame>, sent: seq<Frame>, exact: bool) {
    Subseq(held, sent) && (exact ==> held == sent)
  }

  /** What a connection still holds and has written is what was fanned out to it. */
  ghost predicate ConnInv(k: Conn, fanned: seq<Frame>, hubOpen: bool) {
    && k.from <= |fanned|
    && Received(k.written + k.buf, fanned[k.from..], !k.overrun && !k.cut)
    && (!k.registered && !k.cut ==> !hubOpen)
    && (!k.writer.Running? && !k.cut ==> !hubOpen)
    && (k.writer.Exited? && !k.cut ==> k.buf == [])
  }

  ghost predicate ConnOk(s: Pipe, c: ConnId) {
    c in s.conns ==>
      ConnInv(s.conns[c], s.fanned, s.hub.Open?) && s.conns[c].from <= s.conns[c].since <= |s.drained| + |s.chan|
  }

  lemma WriteKeeps(k: Conn, fanned: seq<Frame>, hubOpen: bool, ok: bool)
    requires ConnInv(k, fanned, hubOpen) && |k.buf| > 0
    ensures var t := k.(buf := k.buf[1..]);
      ConnInv(if ok then t.(written := k.written + [k.buf[0]]) else t.(cut := true, writer := Exited), fanned, hubOpen)
  {
    assert k.written + [k.buf[0]] + k.buf[1..] == k.written + k.buf;
    if !ok {
      DropMiddle(k.written, k.buf, fanned[k.from..]);
    }
  }

  lemma {:induction false} DropMiddle(a: seq<Frame>, b: seq<Frame>, c: seq<Frame>)
    requires |b| > 0 && Subseq(a + b, c)
    ensures Subseq(a + b[1..], c)
  {
    SubseqWithout(a, b);
    SubseqTrans(a + b[1..], a + b, c);
  }

  lemma {:induction false} SubseqWithout(a: seq<Frame>, b: seq<Frame>)
    requires |b| > 0
    ensures Subseq(a + b[1..], a + b)
  {
    var whole := a + b;
    assert whole[..|whole| - 1] == a + b[..|b| - 1];
    if |b| == 1 {
      SubseqSelf(a);
      assert a + b[1..] == a;
    } else {
      SubseqWithout(a, b[..|b| - 1]);
      assert (a + b[1..])[..|whole| - 2] == a + b[..|b| - 1][1..];
    }
  }

  lemma DeliverKeeps(k: Conn, fanned: seq<Frame>, f: Frame)
    requires ConnInv(k, fanned, true)
    ensures ConnInv(Deliver(k, f), fanned + [f], true)
  {
    var held, sent := k.written + k.buf, fanned[k.from..];
    assert (fanned + [f])[k.from..] == sent + [f];
    if k.registered && |k.buf| < CONN_BUFFER {
      assert k.written + (k.buf + [f]) == held + [f];
      ReceivedKeep(held, sent, !k.overrun && !k.cut, f);
    } else {
      ReceivedSkip(held, sent, f);
    }
  }

  lemma ReceivedKeep(held: seq<Frame>, sent: seq<Frame>, exact: bool, f: Frame)
    requires Received(held, sent, exact)
    ensures Received(held + [f], sent + [f], exact)
  {
    SubseqKeep(held, sent, f);
  }

  lemma ReceivedSkip(held: seq<Frame>, sent: seq<Frame>, f: Frame)
    requires Subseq(held, sent)
    ensures Received(held, sent + [f], false)
  {
    SubseqSkip(held, sent, f);
  }

  lemma FannedWithin(s: Pipe)
    requires AcceptedInOrder(s) && PublishedInOrder(s) && HubInv(s)
    ensures |s.fanned| <= |s.drained| + |s.chan|
    ensures Subseq(s.fanned, s.offered)
  {
    FramesPrefix(s.published, s.hubRead);
    SubseqTrans(s.fanned, Frames(s.published), s.drained);
    SubseqShort(s.fanned, s.drained);
    assert Accepted(s)[..|s.drained|] == s.drained;
    SubseqPrefix(s.fanned, Accepted(s), |s.drained|);
    SubseqTrans(s.fanned, Accepted(s), s.offered);
  }

  lemma {:induction false} FramesPrefix(es: seq<Envelope>, n: nat)
    requires n <= |es|
    ensures Subseq(Frames(es[..n]), Frames(es))
    decreases |es|
  {
    if n == |es| {
      assert es[..n] == es;
      SubseqSelf(Frames(es));
    } else {
      var ds := es[..|es| - 1];
      assert ds[..n] == es[..n];
      FramesPrefix(ds, n);
      FramesPush(ds, es[|es| - 1]);
      assert es == ds + [es[|es| - 1]];
      assert Frames(ds) + [] == Frames(ds);
      if es[|es| - 1].Payload? { SubseqSkip(Frames(es[..n]), Frames(ds), es[|es| - 1].frame); }
    }
  }

  lemma ConnAfter(s: Pipe, m: Move, c: ConnId)
    requires |s.fanned| <= |s.drained| + |s.chan|
    requires ConnOk(s, c) && Enabled(s, m)
    ensures ConnOk(Next(s, m), c)
  {
    match m
    case HubTake =>
      var e := s.published[s.hubRead];
      if e.Payload? && c in s.conns { DeliverKeeps(s.conns[c], s.fanned, e.frame); }
    case Register(d) => if d == c { RegisterOk(s, c); }
    case Write(d, ok) => if d == c { WriteKeeps(s.conns[c], s.fanned, s.hub.Open?, ok); }
    case Unregister(_) => MarksOk(s, m, c);
    case SeeClosed(_) => MarksOk(s, m, c);
    case WriterEnd(_) => MarksOk(s, m, c);
    case SeeCut(_) => MarksOk(s, m, c);
    case Cut(_) => MarksOk(s, m, c);
    case _ => UpstreamOk(s, m, c);
  }

  lemma RegisterOk(s: Pipe, c: ConnId)
    requires |s.fanned| <= |s.drained| + |s.chan| && Enabled(s, Register(c))
    ensures ConnOk(Next(s, Register(c)), c)
  {
    var k := Next(s, Register(c)).conns[c];
    assert s.fanned[|s.fanned|..] == [] && k.written + k.buf == [];
  }

  /** Moves upstream of the connections. */
  lemma UpstreamOk(s: Pipe, m: Move, c: ConnId)
    requires ConnOk(s, c) && Enabled(s, m)
    requires m.Offer? || m.Cancel? || m.DrainOne? || m.SeeDone? || m.DrainEnd? || m.HubStop? || m.HubEnd?
    ensures ConnOk(Next(s, m), c)
  {
    var t := Next(s, m);
    assert t.conns == s.conns && t.fanned == s.fanned && (t.hub.Open? ==> s.hub.Open?);
    assert |t.drained| + |t.chan| >= |s.drained| + |s.chan|;
  }

  /** Moves of one connection that leave its frames alone. */
  lemma MarksOk(s: Pipe, m: Move, c: ConnId)
    requires ConnOk(s, c) && Enabled(s, m)
    requires m.Unregister? || m.SeeClosed? || m.WriterEnd? || m.SeeCut? || m.Cut?
    ensures ConnOk(Next(s, m), c)
  {
    var t := Next(s, m);
    assert t == s.(conns := t.conns);
    if c in s.conns && m.c == c {
      var k, l := s.conns[c], t.conns[c];
      assert l == k.(registered := l.registered, cut := l.cut, writer := l.writer);
      assert Received(k.written + k.buf, s.fanned[k.from..], !k.overrun && !k.cut);
      assert Received(l.written + l.buf, t.fanned[l.from..], !l.overrun && !l.cut);
    }
  }

  ghost predicate PipeInv(s: Pipe) {
    && AcceptedInOrder(s) && ChannelInv(s)
    && PublishedInOrder(s) && MarkInv(s) && HubInv(s)
    && forall c :: ConnOk(s, c)
  }

  lemma {:induction false} PipeAlways(moves: seq<Move>)
    requires Runs(moves)
    ensures PipeInv(After(moves))
  {
    if |moves| > 0 {
      var s, m := After(moves[..|moves| - 1]), moves[|moves| - 1];
      PipeAlways(moves[..|moves| - 1]);
      AcceptedAfter(s, m);
      ChannelAfter(s, m);
      PublishedAfter(s, m);
      MarkAfter(s, m);
      HubAfter(s, m);
      FannedWithin(s);
      forall c ensures ConnOk(Next(s, m), c) {
        ConnAfter(s, m, c);
      }
    }
  }

  // ------------------------------------------------------------- main results

  /** In every interleaving, what a socket has been sent is a subsequence, in order,
      of what the actor broadcast. */
  lemma WrittenInOrder(moves: seq<Move>, c: ConnId)
    requires Runs(moves) && c in After(moves).conns
    ensures Subseq(After(moves).conns[c].written, After(moves).offered)
  {
    var s := After(moves);
    PipeAlways(moves);
    assert ConnOk(s, c);
    var k := s.conns[c];
    assert (k.written + k.buf)[..|k.written|] == k.written;
    SubseqDropTail(k.written + k.buf, |k.written|, s.fanned[k.from..]);
    SubseqSuffix(s.fanned, k.from);
    SubseqTrans(k.written, s.fanned[k.from..], s.fanned);
    FannedWithin(s);
    SubseqTrans(k.written, s.fanned, s.offered);
  }

  /** The connection ended because its room did, with no fault of its own. */
  predicate CleanEnd(s: Pipe, c: ConnId) {
    c in s.conns && s.conns[c].writer.Exited? && !s.conns[c].cut && !s.conns[c].overrun && s.hub.ClosedByRoom?
  }

  /** Nothing is missing at the end: a connection that was never cut or overrun has
      been sent every frame that was published from its registration on; so, if no
      publish failed, everything up to at least what was enqueued before the room was
      cancelled. */
  lemma EverythingDelivered(moves: seq<Move>, c: ConnId)
    requires Runs(moves) && CleanEnd(After(moves), c)
    ensures var s := After(moves);
      var k := s.conns[c];
      && s.cancelled && s.cancelAt <= |s.drained|
      && k.from <= k.since && k.from <= |Frames(s.published)|
      && k.written == Frames(s.published)[k.from..]
      && (!s.lossy ==> Frames(s.published) == s.drained)
    ensures var s := After(moves); |Accepted(s)| == |s.offered| ==> Accepted(s) == s.offered
  {
    var s := After(moves);
    PipeAlways(moves);
    assert ConnOk(s, c);
    var k := s.conns[c];
    assert s.published[..s.hubRead] == s.published;
    assert k.written + k.buf == k.written;
    SubseqShort(Accepted(s), s.offered);
  }

  /** The end of the room is put on the bus once at most, with nothing after it, and
      exactly when the drain is over if no publish failed. */
  lemma RoomClosedOnce(moves: seq<Move>)
    requires Runs(moves)
    ensures var s := After(moves);
      && s.closeCalls == (if s.drain.Exited? then 1 else 0)
      && (forall k :: 0 <= k < |s.published| && s.published[k].RoomClosed? ==> k == |s.published| - 1)
      && (!s.lossy ==> (s.drain.Exited? <==> exists k :: 0 <= k < |s.published| && s.published[k].RoomClosed?))
  {
    PipeAlways(moves);
    var s := After(moves);
    if s.drain.Exited? && !s.lossy {
      assert s.published[|s.published| - 1].RoomClosed?;
    }
  }

  // ----------------------------------------------------------- winding down

  /** Moves of the pipeline itself, none of them failing: no new frames, no new
      connections, no connection cut, nobody stopping the hub. */
  predicate Internal(m: Move) {
    match m
    case DrainOne(ok) => ok
    case DrainEnd(ok) => ok
    case Write(_, ok) => ok
    case SeeDone => true
    case HubTake => true
    case SeeClosed(_) => true
    case WriterEnd(_) => true
    case SeeCut(_) => true
    case Unregister(_) => true
    case _ => false
  }

  predicate Quiet(s: Pipe) {
    s.drain.Exited? && !s.hub.Open? && forall c :: c in s.conns ==> s.conns[c].writer.Exited?
  }

  function Left(p: Phase): nat {
    if p.Running? then 2 else if p.Draining? then 1 else 0
  }

  function Chores(k: Conn): int {
    |k.buf| + Left(k.writer) + (if k.registered then 1 else 0)
  }

  ghost function Work(s: Pipe): int {
    Sum(s.conns, (k: Conn) => Chores(k))
  }

  predicate Marked(s: Pipe) {
    |s.published| > 0 && s.published[|s.published| - 1].RoomClosed?
  }

  /** The drain is over, but the end of the room never got onto the bus, and the hub
      still waits for it. */
  predicate Stranded(s: Pipe) {
    s.drain.Exited? && s.hub.Open? && !Marked(s)
  }

  /** Once the room is cancelled the pipeline cannot get stuck before it is quiet,
      whatever frames were lost, unless it is stranded. */
  lemma SomethingCanMove(s: Pipe) returns (m: Move)
    requires PipeInv(s) && s.cancelled && !Stranded(s) && !Quiet(s)
    ensures Internal(m) && Enabled(s, m)
  {
    if s.drain.Running? {
      m := SeeDone;
    } else if s.drain.Draining? {
      m := if |s.chan| == 0 then DrainEnd(true) else DrainOne(true);
    } else if s.hub.Open? {
      assert s.published[|s.published| - 1].RoomClosed?;
      m := HubTake;
    } else {
      var c :| c in s.conns && !s.conns[c].writer.Exited?;
      m := if s.conns[c].writer.Running? then SeeClosed(c)
           else if |s.conns[c].buf| == 0 then WriterEnd(c) else Write(c, true);
    }
  }

  ghost predicate Below(t: Pipe, s: Pipe) {
    || Left(t.drain) < Left(s.drain)
    || (Left(t.drain) == Left(s.drain) &&
        (|| |t.chan| < |s.chan|
         || (|t.chan| == |s.chan| &&
             (|| |t.published| - t.hubRead < |s.published| - s.hubRead
              || (|t.published| - t.hubRead == |s.published| - s.hubRead && 0 <= Work(t) < Work(s))))))
  }

  /** Every move of the pipeline brings it closer to the end. */
  lemma MovesWindDown(s: Pipe, m: Move)
    requires Internal(m) && Enabled(s, m)
    ensures Below(Next(s, m), s)
  {
    var t := Next(s, m);
    if m.Write? || m.SeeClosed? || m.WriterEnd? || m.SeeCut? || m.Unregister? {
      var f := (k: Conn) => Chores(k);
      SumPut(s.conns, f, m.c, t.conns[m.c]);
      SumNat(t.conns, f);
    }
  }

  lemma Extend(moves: seq<Move>, m: Move)
    requires Runs(moves) && Enabled(After(moves), m)
    ensures Runs(moves + [m]) && After(moves + [m]) == Next(After(moves), m)
  {
    assert (moves + [m])[..|moves|] == moves;
  }

  /** A pipeline of its own accord neither strands itself nor gets free again. */
  lemma StrandedStays(s: Pipe, m: Move)
    requires MarkInv(s) && Internal(m) && Enabled(s, m)
    ensures Stranded(Next(s, m)) <==> Stranded(s)
  {
    if m.HubTake? && s.published[s.hubRead].RoomClosed? {
      assert s.hubRead == |s.published| - 1;
    }
  }

  lemma Advances(moves: seq<Move>) returns (m: Move)
    requires Runs(moves) && After(moves).cancelled && !Stranded(After(moves)) && !Quiet(After(moves))
    ensures Internal(m) && Runs(moves + [m]) && Below(After(moves + [m]), After(moves))
    ensures After(moves + [m]).cancelled && !Stranded(After(moves + [m]))
  {
    PipeAlways(moves);
    m := SomethingCanMove(After(moves));
    MovesWindDown(After(moves), m);
    StrandedStays(After(moves), m);
    Extend(moves, m);
  }

  /** whole goes on from moves, by the pipeline's own moves alone. */
  ghost predicate GoesOn(moves: seq<Move>, whole: seq<Move>) {
    moves <= whole && Runs(whole) && forall k :: |moves| <= k < |whole| ==> Internal(whole[k])
  }

  lemma {:induction false} WindsDown(moves: seq<Move>, s: Pipe) returns (whole: seq<Move>)
    requires Runs(moves) && s == After(moves) && s.cancelled && !Stranded(s)
    ensures GoesOn(moves, whole) && Quiet(After(whole))
    decreases Left(s.drain), |s.chan|, |s.published| - s.hubRead, Work(s)
  {
    if Quiet(s) {
      whole := moves;
    } else {
      var m := Advances(moves);
      whole := WindsDown(moves + [m], After(moves + [m]));
      assert whole[|moves|] == m;
    }
  }

  lemma {:induction false} StrandedForEver(moves: seq<Move>, whole: seq<Move>)
    requires Runs(moves) && Stranded(After(moves)) && GoesOn(moves, whole)
    ensures Stranded(After(whole))
    decreases |whole|
  {
    if |whole| > |moves| {
      var before := whole[..|whole| - 1];
      assert moves <= before;
      StrandedForEver(moves, before);
      PipeAlways(before);
      StrandedStays(After(before), whole[|whole| - 1]);
    } else {
      assert whole == moves;
    }
  }

  /** From any point after the cancellation the end of every loop can be reached by
      the pipeline's own moves if and only if it is not stranded. */
  lemma WindsDownIff(moves: seq<Move>)
    requires Runs(moves) && After(moves).cancelled
    ensures (exists whole :: GoesOn(moves, whole) && Quiet(After(whole))) <==> !Stranded(After(moves))
  {
    if Stranded(After(moves)) {
      forall whole | GoesOn(moves, whole) ensures !Quiet(After(whole)) {
        StrandedForEver(moves, whole);
      }
    } else {
      var whole := WindsDown(moves, After(moves));
    }
  }

  lemma MarksOnce(s: Pipe, m: Move)
    requires MarkInv(s) && Enabled(s, m)
    ensures Next(s, m).drain.Exited? <==> s.drain.Exited? || m.DrainEnd?
    ensures m.DrainEnd? ==> !s.drain.Exited?
    ensures Marked(Next(s, m)) <==> Marked(s) || m == DrainEnd(true)
  {
  }

  predicate Ends(moves: seq<Move>, ok: bool) {
    |moves| > 0 && (Ends(moves[..|moves| - 1], ok) || moves[|moves| - 1] == DrainEnd(ok))
  }

  lemma {:induction false} EndsIn(moves: seq<Move>, ok: bool)
    ensures Ends(moves, ok) <==> DrainEnd(ok) in moves
  {
    if |moves| > 0 {
      EndsIn(moves[..|moves| - 1], ok);
      assert moves == moves[..|moves| - 1] + [moves[|moves| - 1]];
    }
  }

  /** The run's only publish of the end of the room, and whether it got through. */
  lemma {:induction false} EndInMoves(moves: seq<Move>)
    requires Runs(moves)
    ensures var s := After(moves);
      && (s.drain.Exited? <==> Ends(moves, true) || Ends(moves, false))
      && (Ends(moves, true) <==> Marked(s))
      && !(Ends(moves, true) && Ends(moves, false))
  {
    if |moves| > 0 {
      var before := moves[..|moves| - 1];
      EndInMoves(before);
      PipeAlways(before);
      MarksOnce(After(before), moves[|moves| - 1]);
    }
  }

  /** It is stranded if and only if the publish of room_closed failed, and nothing
      else has stopped the hub. */
  lemma StrandedIff(moves: seq<Move>)
    requires Runs(moves)
    ensures Stranded(After(moves)) <==> DrainEnd(false) in moves && After(moves).hub.Open?
  {
    EndInMoves(moves);
    EndsIn(moves, false);
  }

  /** One connection, and a room whose end is lost: its writer can never end by itself. */
  lemma StrandedRun() returns (moves: seq<Move>)
    ensures Runs(moves) && Stranded(After(moves)) && After(moves).cancelled
    ensures After(moves).conns.Keys == {0} && After(moves).conns[0].writer.Running?
    ensures moves[|moves| - 1] == DrainEnd(false)
  {
    moves := [];
    Extend(moves, Register(0));
    moves := moves + [Register(0)];
    Extend(moves, Cancel);
    moves := moves + [Cancel];
    Extend(moves, SeeDone);
    moves := moves + [SeeDone];
    Extend(moves, DrainEnd(false));
    moves := moves + [DrainEnd(false)];
  }

  // ------------------------------------------- from the actor to the socket

  /** The frames the actor's channel had room for, in order. */
  function AcceptedFrames(trace: seq<Effect>): seq<Frame> {
    if |trace| == 0 then []
    else
      var e := trace[|trace| - 1];
      AcceptedFrames(trace[..|trace| - 1]) + (if e.Broadcast? && e.accepted then [e.frame] else [])
  }

  /** The pipeline was fed exactly this actor's broadcasts up to the cancellation. */
  predicate FedBy(p: Pipe, trace: seq<Effect>) {
    p.cancelAt <= |p.drained| + |p.chan| && Accepted(p)[..p.cancelAt] == AcceptedFrames(trace)
  }

  /** If the actor's last broadcast before the cancellation is f, then every connection
      that registered before it, and was never cut or overrun, has been sent f by the
      time it is closed. */
  lemma LastFrameArrives(trace: seq<Effect>, f: Frame, moves: seq<Move>, c: ConnId)
    requires |trace| > 0 && trace[|trace| - 1] == Broadcast(f, true)
    requires Runs(moves) && CleanEnd(After(moves), c) && !After(moves).lossy
    requires FedBy(After(moves), trace) && After(moves).conns[c].since < After(moves).cancelAt
    ensures f in After(moves).conns[c].written
  {
    var p := After(moves);
    var k := p.conns[c];
    EverythingDelivered(moves, c);
    assert AcceptedFrames(trace)[p.cancelAt - 1] == f;
    assert p.drained[p.cancelAt - 1] == Accepted(p)[..p.cancelAt][p.cancelAt - 1];
    assert k.written[p.cancelAt - 1 - k.from] == f;
  }
}
