/** The consumer of workout.sample: a fetch loop that fills a batch, writes it,
    and commits its offsets only once the batch is written or given up. */
module SampleConsumer {
  import opened Options
  import opened Shared

  const FLUSH_BATCH_SIZE := 200
  const FLUSH_INTERVAL_MS := 3000

  datatype Sample = Sample(raceId: RaceId, userId: UserId, ts: int, distance: int, pace: int)

  /** A fetched message; its payload decodes to a sample or not at all. */
  datatype Message = Message(offset: nat, payload: Option<Sample>)

  datatype Poll = Fetched(msg: Message) | TimedOut | Interrupted | Failed

  /** What a bulk insert answers. */
  datatype Outcome = Written | Permanent | Transient

  /** One turn of the loop: whether it starts cancelled, what the fetch gives,
      the clock as it is read at the add and at the flush check, and the
      database's answer should the turn write. */
  datatype Turn = Turn(cancelled: bool, poll: Poll, addedAt: int, checkedAt: int, outcome: Outcome)

  datatype Effect =
    | Insert(samples: seq<Sample>, outcome: Outcome)
    | DeadLetter(msg: Message)
    | Commit(msgs: seq<Message>)

  /** The batch as a value, and the consumer as a value. */
  datatype Batch = Batch(samples: seq<Sample>, messages: seq<Message>, openedAt: int)

  datatype State = State(batch: Batch, stopped: bool, effects: seq<Effect>)

  function Added(b: Batch, s: Sample, m: Message, now: int): Batch {
    Batch(b.samples + [s], b.messages + [m], if |b.samples| == 0 then now else b.openedAt)
  }

  predicate Due(b: Batch, now: int) {
    |b.samples| > 0 && (|b.samples| >= FLUSH_BATCH_SIZE || now - b.openedAt >= FLUSH_INTERVAL_MS)
  }

  function Emptied(b: Batch): Batch {
    b.(samples := [], messages := [])
  }

  function DeadLetters(ms: seq<Message>): (es: seq<Effect>)
    ensures |es| == |ms|
    ensures forall k :: 0 <= k < |ms| ==> es[k] == DeadLetter(ms[k])
  {
    if |ms| == 0 then [] else DeadLetters(ms[..|ms| - 1]) + [DeadLetter(ms[|ms| - 1])]
  }

  function Flushed(s: State, o: Outcome): State {
    var b := s.batch;
    if |b.samples| == 0 then s
    else
      var tried := s.effects + [Insert(b.samples, o)];
      match o
      case Written => s.(batch := Emptied(b), effects := tried + [Commit(b.messages)])
      case Permanent => s.(batch := Emptied(b), effects := tried + DeadLetters(b.messages) + [Commit(b.messages)])
      case Transient => s.(effects := tried)
  }

  function Turned(s: State, t: Turn): State {
    if s.stopped then s
    else if t.cancelled then Flushed(s, t.outcome).(stopped := true)
    else match t.poll
      case Fetched(m) =>
        (match m.payload
         case None => s.(effects := s.effects + [DeadLetter(m), Commit([m])])
         case Some(p) => Checked(s.(batch := Added(s.batch, p, m, t.addedAt)), t))
      case TimedOut => Checked(s, t)
      case Interrupted => Flushed(s, t.outcome).(stopped := true)
      case Failed => s
  }

  function Checked(s: State, t: Turn): State {
    if Due(s.batch, t.checkedAt) then Flushed(s, t.outcome) else s
  }

  const FRESH := State(Batch([], [], 0), false, [])

  function AfterTurns(ts: seq<Turn>): State {
    if |ts| == 0 then FRESH else Turned(AfterTurns(ts[..|ts| - 1]), ts[|ts| - 1])
  }

  // ---------------------------------------------------------------------------
  // The loop itself.

  class SampleBatch {
    var samples: seq<Sample>
    var messages: seq<Message>
    var openedAt: int

    function Value(): Batch
      reads this
    {
      Batch(samples, messages, openedAt)
    }

    constructor ()
      ensures Value() == FRESH.batch
    {
      samples := [];
      messages := [];
      openedAt := 0;
    }

    method Add(s: Sample, m: Message, now: int)
      modifies this
      ensures Value() == Added(old(Value()), s, m, now)
    {
      if |samples| == 0 {
        openedAt := now;
      }
      samples := samples + [s];
      messages := messages + [m];
    }

    method ShouldFlush(now: int) returns (due: bool)
      ensures due <==> Due(Value(), now)
    {
      if |samples| == 0 {
        return false;
      }
      return |samples| >= FLUSH_BATCH_SIZE || now - openedAt >= FLUSH_INTERVAL_MS;
    }

    method Reset()
      modifies this
      ensures Value() == Emptied(old(Value()))
    {
      samples := [];
      messages := [];
    }
  }

  class Consumer {
    const batch: SampleBatch
    var stopped: bool
    var effects: seq<Effect>

    function Value(): State
      reads this, batch
    {
      State(batch.Value(), stopped, effects)
    }

    constructor ()
      ensures Value() == FRESH && fresh(batch)
    {
      batch := new SampleBatch();
      stopped := false;
      effects := [];
    }

    method Flush(o: Outcome)
      modifies this`effects, batch
      ensures Value() == Flushed(old(Value()), o)
    {
      if |batch.samples| == 0 {
        return;
      }
      effects := effects + [Insert(batch.samples, o)];
      if o == Written {
        effects := effects + [Commit(batch.messages)];
        batch.Reset();
        return;
      }
      if o == Permanent {
        ghost var tried := effects;
        var k := 0;
        assert effects == tried + DeadLetters([]);
        while k < |batch.messages|
          invariant k <= |batch.messages|
          invariant batch.Value() == old(batch.Value())
          invariant effects == tried + DeadLetters(batch.messages[..k])
        {
          assert batch.messages[..k + 1][..k] == batch.messages[..k];
          effects := effects + [DeadLetter(batch.messages[k])];
          k := k + 1;
        }
        assert batch.messages[..k] == batch.messages;
        effects := effects + [Commit(batch.messages)];
        batch.Reset();
      }
    }

    method RunWorkoutSampleLoop(ts: seq<Turn>)
      requires Value() == FRESH
      modifies this, batch
      ensures Value() == AfterTurns(ts)
    {
      var k := 0;
      while k < |ts| && !stopped
        invariant k <= |ts|
        invariant Value() == AfterTurns(ts[..k])
      {
        var t := ts[k];
        assert ts[..k + 1][..k] == ts[..k];
        k := k + 1;
        if t.cancelled {
          Flush(t.outcome);
          stopped := true;
          continue;
        }
        match t.poll {
          case Fetched(m) =>
            match m.payload {
              case None =>
                effects := effects + [DeadLetter(m), Commit([m])];
                continue;
              case Some(p) =>
                batch.Add(p, m, t.addedAt);
            }
          case TimedOut =>
          case Interrupted =>
            Flush(t.outcome);
            stopped := true;
            continue;
          case Failed =>
            continue;
        }
        var due := batch.ShouldFlush(t.checkedAt);
        if due {
          Flush(t.outcome);
        }
      }
      StoppedStays(ts, k);
    }
  }

  predicate HasStop(ts: seq<Turn>) {
    exists k :: 0 <= k < |ts| && (ts[k].cancelled || ts[k].poll.Interrupted?)
  }

  /** The loop has stopped exactly if some turn started cancelled or had its fetch
      interrupted; no failure of the reader or the database stops it. */
  lemma {:induction false} StoppedIff(ts: seq<Turn>)
    ensures AfterTurns(ts).stopped <==> HasStop(ts)
  {
    if |ts| > 0 {
      var before, t := ts[..|ts| - 1], ts[|ts| - 1];
      StoppedIff(before);
      assert HasStop(ts) <==> HasStop(before) || t.cancelled || t.poll.Interrupted? by {
        assert ts == before + [t];
      }
    }
  }

  lemma {:induction false} StoppedStays(ts: seq<Turn>, k: nat)
    requires k <= |ts|
    requires k == |ts| || AfterTurns(ts[..k]).stopped
    ensures AfterTurns(ts[..k]) == AfterTurns(ts)
    decreases |ts| - k
  {
    if k == |ts| {
      assert ts[..k] == ts;
    } else {
      assert ts[..k + 1][..k] == ts[..k];
      StoppedStays(ts, k + 1);
    }
  }

  // ---------------------------------------------------------------------------
  // Conservation.

  /** The messages that decode, or those that do not. */
  function Those(ms: seq<Message>, readable: bool): seq<Message> {
    if |ms| == 0 then []
    else
      var before := Those(ms[..|ms| - 1], readable);
      if ms[|ms| - 1].payload.Some? == readable then before + [ms[|ms| - 1]] else before
  }

  function Readable(ms: seq<Message>): seq<Message> {
    Those(ms, true)
  }

  function Garbled(ms: seq<Message>): seq<Message> {
    Those(ms, false)
  }

  function Decoded(ms: seq<Message>): seq<Sample> {
    if |ms| == 0 then []
    else
      var before := Decoded(ms[..|ms| - 1]);
      if ms[|ms| - 1].payload.Some? then before + [ms[|ms| - 1].payload.value] else before
  }

  predicate Takes(s: State, t: Turn) {
    !s.stopped && !t.cancelled && t.poll.Fetched?
  }

  /** What the loop took from the reader before it stopped. */
  function Taken(ts: seq<Turn>): seq<Message> {
    if |ts| == 0 then []
    else
      var before := ts[..|ts| - 1];
      var t := ts[|ts| - 1];
      if Takes(AfterTurns(before), t) then Taken(before) + [t.poll.msg] else Taken(before)
  }

  /** The totals of a trace: offsets committed, samples written or refused for
      good, samples refused, and messages dead-lettered, each in order. */
  datatype Totals = Totals(committed: seq<Message>, settled: seq<Sample>, refused: seq<Sample>, dead: seq<Message>)

  function Tally(es: seq<Effect>): Totals {
    if |es| == 0 then Totals([], [], [], []) else Tallied(Tally(es[..|es| - 1]), es[|es| - 1])
  }

  function Tallied(l: Totals, e: Effect): Totals {
    match e
    case Insert(ss, o) =>
      l.(settled := if o.Transient? then l.settled else l.settled + ss,
         refused := if o.Permanent? then l.refused + ss else l.refused)
    case DeadLetter(m) => l.(dead := l.dead + [m])
    case Commit(ms) => l.(committed := l.committed + ms)
  }

  lemma TallyNext(es: seq<Effect>, e: Effect)
    ensures Tally(es + [e]) == Tallied(Tally(es), e)
  {
    assert (es + [e])[..|es|] == es;
  }

  lemma Snoc<T>(xs: seq<T>, ys: seq<T>, y: T, all: seq<T>)
    requires xs + ys == all
    ensures xs + (ys + [y]) == all + [y]
  {
  }

  lemma {:induction false} TallyDead(es: seq<Effect>, ms: seq<Message>)
    ensures Tally(es + DeadLetters(ms)) == Tally(es).(dead := Tally(es).dead + ms)
  {
    if |ms| == 0 {
      assert es + DeadLetters(ms) == es;
    } else {
      var before, m := ms[..|ms| - 1], ms[|ms| - 1];
      TallyDead(es, before);
      TallyNext(es + DeadLetters(before), DeadLetter(m));
      assert es + DeadLetters(ms) == es + DeadLetters(before) + [DeadLetter(m)];
      Snoc(Tally(es).dead, before, m, Tally(es).dead + before);
      assert before + [m] == ms;
    }
  }

  lemma FiltersNext(ms: seq<Message>, m: Message)
    ensures Readable(ms + [m]) == if m.payload.Some? then Readable(ms) + [m] else Readable(ms)
    ensures Garbled(ms + [m]) == if m.payload.None? then Garbled(ms) + [m] else Garbled(ms)
    ensures Decoded(ms + [m]) == if m.payload.Some? then Decoded(ms) + [m.payload.value] else Decoded(ms)
  {
    assert (ms + [m])[..|ms|] == ms;
  }

  lemma {:induction false} ThoseJoin(xs: seq<Message>, ys: seq<Message>, readable: bool)
    ensures Those(xs + ys, readable) == Those(xs, readable) + Those(ys, readable)
  {
    if |ys| == 0 {
      assert xs + ys == xs;
    } else {
      ThoseJoin(xs, ys[..|ys| - 1], readable);
      assert (xs + ys)[..|xs + ys| - 1] == xs + ys[..|ys| - 1];
    }
  }

  lemma {:induction false} DecodedJoin(xs: seq<Message>, ys: seq<Message>)
    ensures Decoded(xs + ys) == Decoded(xs) + Decoded(ys)
  {
    if |ys| == 0 {
      assert xs + ys == xs;
    } else {
      DecodedJoin(xs, ys[..|ys| - 1]);
      assert (xs + ys)[..|xs + ys| - 1] == xs + ys[..|ys| - 1];
    }
  }

  predicate AllReadable(ms: seq<Message>) {
    forall k :: 0 <= k < |ms| ==> ms[k].payload.Some?
  }

  lemma {:induction false} ReadableAll(ms: seq<Message>)
    requires AllReadable(ms)
    ensures Readable(ms) == ms && Garbled(ms) == [] && |Decoded(ms)| == |ms|
  {
    if |ms| > 0 {
      ReadableAll(ms[..|ms| - 1]);
      assert ms[..|ms| - 1] + [ms[|ms| - 1]] == ms;
    }
  }

  /** Samples and messages stay paired. */
  predicate Aligned(b: Batch) {
    AllReadable(b.messages) && b.samples == Decoded(b.messages)
  }

  /** The totals and the batch account for these readable and unreadable messages
      and these samples. */
  ghost predicate Accounts(l: Totals, b: Batch, readable: seq<Message>, garbled: seq<Message>, samples: seq<Sample>) {
    && Aligned(b)
    && Readable(l.committed) + b.messages == readable
    && l.settled + b.samples == samples
    && Garbled(l.committed) == garbled == Garbled(l.dead)
    && Decoded(l.dead) == l.refused
  }

  ghost predicate Balanced(s: State, taken: seq<Message>) {
    Accounts(Tally(s.effects), s.batch, Readable(taken), Garbled(taken), Decoded(taken))
  }

  /** The totals after the batch is put to the database. */
  function Settled(l: Totals, b: Batch, o: Outcome): Totals {
    match o
    case Written => l.(settled := l.settled + b.samples, committed := l.committed + b.messages)
    case Permanent =>
      Totals(l.committed + b.messages, l.settled + b.samples, l.refused + b.samples, l.dead + b.messages)
    case Transient => l
  }

  lemma FlushTally(s: State, o: Outcome)
    requires |s.batch.samples| > 0
    ensures Tally(Flushed(s, o).effects) == Settled(Tally(s.effects), s.batch, o)
  {
    var b := s.batch;
    var tried := s.effects + [Insert(b.samples, o)];
    TallyNext(s.effects, Insert(b.samples, o));
    match o
    case Written => TallyNext(tried, Commit(b.messages));
    case Permanent =>
      TallyDead(tried, b.messages);
      TallyNext(tried + DeadLetters(b.messages), Commit(b.messages));
    case Transient =>
  }

  /** Appending readable messages to a list. */
  lemma FiltersTake(xs: seq<Message>, ms: seq<Message>)
    requires AllReadable(ms)
    ensures Readable(xs + ms) == Readable(xs) + ms && Garbled(xs + ms) == Garbled(xs)
    ensures Decoded(xs + ms) == Decoded(xs) + Decoded(ms)
  {
    ThoseJoin(xs, ms, true);
    ThoseJoin(xs, ms, false);
    DecodedJoin(xs, ms);
    ReadableAll(ms);
  }

  lemma FlushAccounts(l: Totals, b: Batch, readable: seq<Message>, garbled: seq<Message>, samples: seq<Sample>,
                      o: Outcome)
    requires Accounts(l, b, readable, garbled, samples)
    ensures Accounts(Settled(l, b, o), if o.Transient? then b else Emptied(b), readable, garbled, samples)
  {
    if !o.Transient? {
      FiltersTake(l.committed, b.messages);
    }
    if o.Permanent? {
      FiltersTake(l.dead, b.messages);
    }
  }

  lemma FlushBalances(s: State, taken: seq<Message>, o: Outcome)
    requires Balanced(s, taken)
    ensures Balanced(Flushed(s, o), taken)
  {
    if |s.batch.samples| > 0 {
      FlushTally(s, o);
      FlushAccounts(Tally(s.effects), s.batch, Readable(taken), Garbled(taken), Decoded(taken), o);
    }
  }

  function Dropped(s: State, m: Message): State {
    s.(effects := s.effects + [DeadLetter(m), Commit([m])])
  }

  lemma DropTally(es: seq<Effect>, m: Message)
    ensures var l := Tally(es);
            Tally(es + [DeadLetter(m), Commit([m])]) == l.(dead := l.dead + [m], committed := l.committed + [m])
  {
    TallyNext(es, DeadLetter(m));
    TallyNext(es + [DeadLetter(m)], Commit([m]));
    assert es + [DeadLetter(m)] + [Commit([m])] == es + [DeadLetter(m), Commit([m])];
  }

  lemma DropBalances(s: State, taken: seq<Message>, m: Message)
    requires Balanced(s, taken) && m.payload.None?
    ensures Balanced(Dropped(s, m), taken + [m])
  {
    var l := Tally(s.effects);
    DropTally(s.effects, m);
    FiltersNext(l.committed, m);
    FiltersNext(l.dead, m);
    FiltersNext(taken, m);
  }

  function Queued(s: State, m: Message, now: int): State
    requires m.payload.Some?
  {
    s.(batch := Added(s.batch, m.payload.value, m, now))
  }

  lemma AddAccounts(l: Totals, b: Batch, readable: seq<Message>, garbled: seq<Message>, samples: seq<Sample>,
                    m: Message, now: int)
    requires Accounts(l, b, readable, garbled, samples) && m.payload.Some?
    ensures Accounts(l, Added(b, m.payload.value, m, now), readable + [m], garbled, samples + [m.payload.value])
  {
    FiltersNext(b.messages, m);
    Snoc(Readable(l.committed), b.messages, m, readable);
    Snoc(l.settled, b.samples, m.payload.value, samples);
  }

  lemma AddBalances(s: State, taken: seq<Message>, m: Message, now: int)
    requires Balanced(s, taken) && m.payload.Some?
    ensures Balanced(Queued(s, m, now), taken + [m])
  {
    FiltersNext(taken, m);
    AddAccounts(Tally(s.effects), s.batch, Readable(taken), Garbled(taken), Decoded(taken), m, now);
  }

  /** Whatever the reader, the clock and the database do, every readable message
      taken is either committed or still pending, in the order taken; what was
      written or refused is what those committed decode to; and each unreadable
      one is dead-lettered and committed. */
  lemma {:induction false} SamplesConserved(ts: seq<Turn>)
    ensures Balanced(AfterTurns(ts), Taken(ts))
  {
    if |ts| > 0 {
      SamplesConserved(ts[..|ts| - 1]);
      TurnBalances(AfterTurns(ts[..|ts| - 1]), Taken(ts[..|ts| - 1]), ts[|ts| - 1]);
    }
  }

  lemma TurnBalances(s: State, taken: seq<Message>, t: Turn)
    requires Balanced(s, taken)
    ensures Balanced(Turned(s, t), if Takes(s, t) then taken + [t.poll.msg] else taken)
  {
    if !Takes(s, t) {
      FlushBalances(s, taken, t.outcome);
    } else if t.poll.msg.payload.None? {
      DropBalances(s, taken, t.poll.msg);
    } else {
      AddBalances(s, taken, t.poll.msg, t.addedAt);
      FlushBalances(Queued(s, t.poll.msg, t.addedAt), taken + [t.poll.msg], t.outcome);
    }
  }

  lemma {:induction false} Divides(ms: seq<Message>)
    ensures multiset(ms) == multiset(Readable(ms)) + multiset(Garbled(ms))
  {
    if |ms| > 0 {
      Divides(ms[..|ms| - 1]);
      assert ms[..|ms| - 1] + [ms[|ms| - 1]] == ms;
    }
  }

  /** So no message is committed more often than it was taken, and none is both
      committed and pending. */
  lemma CommittedOnce(ts: seq<Turn>)
    ensures multiset(Tally(AfterTurns(ts).effects).committed) + multiset(AfterTurns(ts).batch.messages)
         == multiset(Taken(ts))
  {
    SamplesConserved(ts);
    var c := Tally(AfterTurns(ts).effects).committed;
    Divides(c);
    Divides(Taken(ts));
    assert multiset(Readable(c) + AfterTurns(ts).batch.messages) == multiset(Readable(Taken(ts)));
  }

  /** The turn that stops the loop leaves nothing taken uncommitted if and only
      if nothing was pending or its last write did not fail for the moment. */
  lemma ShutdownLosesNothing(ts: seq<Turn>)
    requires |ts| > 0 && !AfterTurns(ts[..|ts| - 1]).stopped && AfterTurns(ts).stopped
    ensures multiset(Tally(AfterTurns(ts).effects).committed) == multiset(Taken(ts))
       <==> AfterTurns(ts[..|ts| - 1]).batch.messages == [] || !ts[|ts| - 1].outcome.Transient?
  {
    SamplesConserved(ts[..|ts| - 1]);
    StopEmpties(AfterTurns(ts[..|ts| - 1]), ts[|ts| - 1]);
    CommittedOnce(ts);
    NothingMore(multiset(Tally(AfterTurns(ts).effects).committed), AfterTurns(ts).batch.messages, multiset(Taken(ts)));
  }

  lemma StopEmpties(s: State, t: Turn)
    requires Aligned(s.batch) && !s.stopped && Turned(s, t).stopped
    ensures Turned(s, t).batch.messages == [] <==> s.batch.messages == [] || !t.outcome.Transient?
  {
    ReadableAll(s.batch.messages);
  }

  lemma NothingMore(some: multiset<Message>, rest: seq<Message>, all: multiset<Message>)
    requires some + multiset(rest) == all
    ensures some == all <==> rest == []
  {
    assert |multiset(rest)| == |rest|;
  }

  // ---------------------------------------------------------------------------
  // A commit is always earned.

  /** The commit at k follows at once what entitles it: its batch written, or its
      batch refused and each of its messages dead-lettered, or one unreadable
      message dead-lettered. */
  ghost predicate Earned(es: seq<Effect>, k: nat)
    requires k < |es| && es[k].Commit?
  {
    var ms := es[k].msgs;
    || (k >= 1 && AllReadable(ms) && es[k - 1] == Insert(Decoded(ms), Written))
    || (k > |ms| && AllReadable(ms) && es[k - |ms| - 1] == Insert(Decoded(ms), Permanent)
        && forall j :: 0 <= j < |ms| ==> es[k - |ms| + j] == DeadLetter(ms[j]))
    || (k >= 1 && |ms| == 1 && ms[0].payload.None? && es[k - 1] == DeadLetter(ms[0]))
  }

  ghost predicate AllEarned(es: seq<Effect>) {
    forall k :: 0 <= k < |es| && es[k].Commit? ==> Earned(es, k)
  }

  lemma EarnedStays(es: seq<Effect>, more: seq<Effect>, k: nat)
    requires k < |es| && es[k].Commit? && Earned(es, k)
    ensures Earned(es + more, k)
  {
  }

  lemma EarnedGrows(es: seq<Effect>, more: seq<Effect>)
    requires AllEarned(es)
    requires forall k :: |es| <= k < |es + more| && (es + more)[k].Commit? ==> Earned(es + more, k)
    ensures AllEarned(es + more)
  {
    forall k | 0 <= k < |es + more| && (es + more)[k].Commit? ensures Earned(es + more, k) {
      if k < |es| {
        EarnedStays(es, more, k);
      }
    }
  }

  lemma WrittenEarns(es: seq<Effect>, ms: seq<Message>)
    requires AllEarned(es) && AllReadable(ms)
    ensures AllEarned(es + [Insert(Decoded(ms), Written), Commit(ms)])
  {
    EarnedGrows(es, [Insert(Decoded(ms), Written), Commit(ms)]);
  }

  lemma RefusedEarns(es: seq<Effect>, ms: seq<Message>)
    requires AllEarned(es) && AllReadable(ms)
    ensures AllEarned(es + ([Insert(Decoded(ms), Permanent)] + DeadLetters(ms) + [Commit(ms)]))
  {
    var more := [Insert(Decoded(ms), Permanent)] + DeadLetters(ms) + [Commit(ms)];
    forall k | |es| <= k < |es + more| && (es + more)[k].Commit? ensures Earned(es + more, k) {
      assert k == |es| + |ms| + 1;
      assert forall j :: 0 <= j < |ms| ==> more[1 + j] == DeadLetter(ms[j]);
    }
    EarnedGrows(es, more);
  }

  lemma FlushEarns(s: State, o: Outcome)
    requires Aligned(s.batch) && AllEarned(s.effects)
    ensures AllEarned(Flushed(s, o).effects)
  {
    var ms := s.batch.messages;
    var es := s.effects;
    if |s.batch.samples| > 0 {
      match o
      case Written =>
        WrittenEarns(es, ms);
        assert es + [Insert(Decoded(ms), o)] + [Commit(ms)] == es + [Insert(Decoded(ms), Written), Commit(ms)];
      case Permanent =>
        RefusedEarns(es, ms);
        assert es + [Insert(Decoded(ms), o)] + DeadLetters(ms) + [Commit(ms)]
            == es + ([Insert(Decoded(ms), Permanent)] + DeadLetters(ms) + [Commit(ms)]);
      case Transient => EarnedGrows(es, [Insert(Decoded(ms), o)]);
    }
  }

  /** In every run every offset committed was committed for a reason. */
  lemma {:induction false} CommitsAreEarned(ts: seq<Turn>)
    ensures AllEarned(AfterTurns(ts).effects)
  {
    if |ts| > 0 {
      CommitsAreEarned(ts[..|ts| - 1]);
      SamplesConserved(ts[..|ts| - 1]);
      TurnEarns(AfterTurns(ts[..|ts| - 1]), Taken(ts[..|ts| - 1]), ts[|ts| - 1]);
    }
  }

  lemma DropEarns(es: seq<Effect>, m: Message)
    requires AllEarned(es) && m.payload.None?
    ensures AllEarned(es + [DeadLetter(m), Commit([m])])
  {
    EarnedGrows(es, [DeadLetter(m), Commit([m])]);
  }

  lemma TurnEarns(s: State, taken: seq<Message>, t: Turn)
    requires Balanced(s, taken) && AllEarned(s.effects)
    ensures AllEarned(Turned(s, t).effects)
  {
    if !Takes(s, t) {
      FlushEarns(s, t.outcome);
    } else if t.poll.msg.payload.None? {
      DropEarns(s.effects, t.poll.msg);
    } else {
      AddBalances(s, taken, t.poll.msg, t.addedAt);
      FlushEarns(Queued(s, t.poll.msg, t.addedAt), t.outcome);
    }
  }

  /** Turn k took this message, at this reading of the clock. */
  predicate Took(ts: seq<Turn>, k: nat, m: Message, at: int) {
    k < |ts| && ts[k].poll == Fetched(m) && ts[k].addedAt == at
  }

  /** The batch's window opened when its first message was taken. */
  lemma {:induction false} OpenedByFirst(ts: seq<Turn>) returns (k: nat)
    requires AfterTurns(ts).batch.messages != []
    ensures Took(ts, k, AfterTurns(ts).batch.messages[0], AfterTurns(ts).batch.openedAt)
  {
    var n := |ts| - 1;
    SamplesConserved(ts[..n]);
    TurnOpens(AfterTurns(ts[..n]), ts[n]);
    if AfterTurns(ts[..n]).batch.messages == [] {
      k := n;
    } else {
      k := OpenedByFirst(ts[..n]);
    }
  }

  lemma TurnOpens(s: State, t: Turn)
    requires Aligned(s.batch) && Turned(s, t).batch.messages != []
    ensures var b := Turned(s, t).batch;
            if s.batch.messages == [] then t.poll == Fetched(b.messages[0]) && t.addedAt == b.openedAt
            else b.messages[0] == s.batch.messages[0] && b.openedAt == s.batch.openedAt
  {
    ReadableAll(s.batch.messages);
  }

  /** The last turn gets as far as its flush check. */
  predicate Checks(ts: seq<Turn>) {
    |ts| > 0 && !AfterTurns(ts[..|ts| - 1]).stopped &&
    var t := ts[|ts| - 1];
    !t.cancelled && (t.poll.TimedOut? || (t.poll.Fetched? && t.poll.msg.payload.Some?))
  }

  /** A turn that checks leaves nothing waiting for the flush interval or longer,
      unless its write fails for the moment. */
  lemma NothingOverdue(ts: seq<Turn>)
    requires Checks(ts) && !ts[|ts| - 1].outcome.Transient?
    ensures var b := AfterTurns(ts).batch;
            b.messages != [] ==>
              exists k, at :: Took(ts, k, b.messages[0], at) && ts[|ts| - 1].checkedAt < at + FLUSH_INTERVAL_MS
  {
    var b := AfterTurns(ts).batch;
    SamplesConserved(ts);
    ReadableAll(b.messages);
    if b.messages != [] {
      var k := OpenedByFirst(ts);
      NotDue(AfterTurns(ts[..|ts| - 1]), ts[|ts| - 1]);
      assert Took(ts, k, b.messages[0], b.openedAt);
    }
  }

  lemma NotDue(s: State, t: Turn)
    requires !s.stopped && !t.cancelled && (t.poll.TimedOut? || (t.poll.Fetched? && t.poll.msg.payload.Some?))
    requires !t.outcome.Transient?
    ensures !Due(Turned(s, t).batch, t.checkedAt)
  {
  }

  /** What waits as the last turn comes to its flush, the sample it added included. */
  function Waiting(ts: seq<Turn>): seq<Message>
    requires |ts| > 0
  {
    var s, t := AfterTurns(ts[..|ts| - 1]), ts[|ts| - 1];
    if Takes(s, t) && t.poll.msg.payload.Some? then s.batch.messages + [t.poll.msg] else s.batch.messages
  }

  /** The last turn is the one that stops the loop. */
  predicate Stops(ts: seq<Turn>)
    requires |ts| > 0
  {
    !AfterTurns(ts[..|ts| - 1]).stopped && (ts[|ts| - 1].cancelled || ts[|ts| - 1].poll.Interrupted?)
  }

  /** Turn k began with nothing pending, and no later one has. */
  ghost predicate OpensAt(ts: seq<Turn>, k: nat) {
    && k < |ts| && AfterTurns(ts[..k]).batch.messages == []
    && forall j :: k < j < |ts| ==> AfterTurns(ts[..j]).batch.messages != []
  }

  lemma OpensEarlier(ts: seq<Turn>, k: nat)
    requires OpensAt(ts, k) && k < |ts| - 1
    ensures OpensAt(ts[..|ts| - 1], k) && AfterTurns(ts[..|ts| - 1]).batch.messages != []
  {
    var before := ts[..|ts| - 1];
    assert before[..k] == ts[..k];
    forall j | k < j < |before| ensures AfterTurns(before[..j]).batch.messages != [] {
      assert before[..j] == ts[..j];
    }
  }

  lemma {:induction false} OpenedAsOf(ts: seq<Turn>, k: nat)
    requires OpensAt(ts, k) && AfterTurns(ts).batch.messages != []
    ensures AfterTurns(ts).batch.openedAt == ts[k].addedAt
    ensures ts[k].poll == Fetched(AfterTurns(ts).batch.messages[0])
    decreases |ts|
  {
    var before := ts[..|ts| - 1];
    SamplesConserved(before);
    TurnOpens(AfterTurns(before), ts[|ts| - 1]);
    if k < |ts| - 1 {
      OpensEarlier(ts, k);
      OpenedAsOf(before, k);
    }
  }

  /** The turn before its flush, and whether it flushes. */
  function ReadyAt(s: State, t: Turn): State {
    if Takes(s, t) && t.poll.msg.payload.Some? then Queued(s, t.poll.msg, t.addedAt) else s
  }

  /** The new effects of a turn hold one bulk insert, of all these, the first of them. */
  ghost predicate InsertsAll(was: seq<Effect>, es: seq<Effect>, samples: seq<Sample>, o: Outcome) {
    && |es| > |was| && es[|was|] == Insert(samples, o)
    && forall k :: |was| < k < |es| ==> !es[k].Insert?
  }

  ghost predicate InsertsNone(was: seq<Effect>, es: seq<Effect>) {
    was <= es && forall k :: |was| <= k < |es| ==> !es[k].Insert?
  }

  lemma FlushInserts(s: State, o: Outcome)
    requires |s.batch.samples| > 0
    ensures InsertsAll(s.effects, Flushed(s, o).effects, s.batch.samples, o)
  {
  }

  lemma TurnInserts(s: State, t: Turn)
    ensures var r := ReadyAt(s, t);
      var checks := !t.cancelled && (t.poll.TimedOut? || (t.poll.Fetched? && t.poll.msg.payload.Some?));
      if !s.stopped && |r.batch.samples| > 0 &&
         (t.cancelled || t.poll.Interrupted? || (checks && Due(r.batch, t.checkedAt)))
      then InsertsAll(s.effects, Turned(s, t).effects, r.batch.samples, t.outcome)
      else InsertsNone(s.effects, Turned(s, t).effects)
  {
    if |ReadyAt(s, t).batch.samples| > 0 {
      FlushInserts(ReadyAt(s, t), t.outcome);
    }
  }

  lemma ReadyAligned(s: State, t: Turn)
    requires Aligned(s.batch)
    ensures var b := ReadyAt(s, t).batch; b.samples == Decoded(b.messages) && |b.samples| == |b.messages|
  {
    if Takes(s, t) && t.poll.msg.payload.Some? {
      FiltersNext(s.batch.messages, t.poll.msg);
    }
    ReadableAll(ReadyAt(s, t).batch.messages);
  }

  lemma WaitingReady(ts: seq<Turn>)
    requires |ts| > 0
    ensures var b := ReadyAt(AfterTurns(ts[..|ts| - 1]), ts[|ts| - 1]).batch;
      b.messages == Waiting(ts) && b.samples == Decoded(Waiting(ts)) && |b.samples| == |Waiting(ts)|
  {
    SamplesConserved(ts[..|ts| - 1]);
    ReadyAligned(AfterTurns(ts[..|ts| - 1]), ts[|ts| - 1]);
  }

  lemma WaitingSince(ts: seq<Turn>, k: nat)
    requires OpensAt(ts, k) && Waiting(ts) != []
    ensures ReadyAt(AfterTurns(ts[..|ts| - 1]), ts[|ts| - 1]).batch.openedAt == ts[k].addedAt
    ensures ts[k].poll == Fetched(Waiting(ts)[0])
  {
    SamplesConserved(ts[..|ts| - 1]);
    ReadableAll(AfterTurns(ts[..|ts| - 1]).batch.messages);
    if k < |ts| - 1 {
      OpensEarlier(ts, k);
      OpenedAsOf(ts[..|ts| - 1], k);
    }
  }

  /** A turn writes what is waiting if and only if there is something, and the turn stops
      the loop, or gets as far as its flush check with two hundred samples waiting or the
      first of them added three seconds ago; it writes all of them at once, and otherwise
      nothing. Turn k is the one that added the first of them. */
  lemma WritesAreDue(ts: seq<Turn>, k: nat)
    requires OpensAt(ts, k)
    ensures var was, es, q := AfterTurns(ts[..|ts| - 1]).effects, AfterTurns(ts).effects, Waiting(ts);
      var aged := ts[|ts| - 1].checkedAt - ts[k].addedAt >= 3000;
      && (q != [] ==> ts[k].poll == Fetched(q[0]))
      && (if q != [] && (Stops(ts) || (Checks(ts) && (|q| >= 200 || aged)))
          then InsertsAll(was, es, Decoded(q), ts[|ts| - 1].outcome)
          else InsertsNone(was, es))
  {
    TurnInserts(AfterTurns(ts[..|ts| - 1]), ts[|ts| - 1]);
    WaitingReady(ts);
    if Waiting(ts) != [] {
      WaitingSince(ts, k);
    }
  }

  /** There is such a turn k whenever anything waits. */
  lemma {:induction false} SomeOpens(ts: seq<Turn>) returns (k: nat)
    requires |ts| > 0
    ensures OpensAt(ts, k)
  {
    var n := |ts| - 1;
    if n == 0 || AfterTurns(ts[..n]).batch.messages == [] {
      k := n;
    } else {
      k := SomeOpens(ts[..n]);
      assert ts[..n][..k] == ts[..k];
      forall j | k < j < |ts| ensures AfterTurns(ts[..j]).batch.messages != [] {
        if j < n {
          assert ts[..n][..j] == ts[..j];
        }
      }
    }
  }

  /** The turn adds the sample that makes the batch full, and writing it fails for
      the moment. */
  predicate Overfills(s: State, t: Turn) {
    Takes(s, t) && t.poll.msg.payload.Some? && |s.batch.samples| == FLUSH_BATCH_SIZE - 1 && t.outcome.Transient?
  }

  /** No turn but such a one takes a batch to the flush size. */
  lemma FillsIff(s: State, t: Turn)
    requires |s.batch.samples| < FLUSH_BATCH_SIZE
    ensures |Turned(s, t).batch.samples| >= FLUSH_BATCH_SIZE <==> Overfills(s, t)
  {
  }

  predicate SmallAt(ts: seq<Turn>, k: nat)
    requires k <= |ts|
  {
    |AfterTurns(ts[..k]).batch.samples| < FLUSH_BATCH_SIZE
  }

  predicate OverfillsAt(ts: seq<Turn>, k: nat)
    requires k < |ts|
  {
    Overfills(AfterTurns(ts[..k]), ts[k])
  }

  lemma NextTurn(ts: seq<Turn>, k: nat)
    requires k < |ts|
    ensures AfterTurns(ts[..k + 1]) == Turned(AfterTurns(ts[..k]), ts[k])
  {
    assert ts[..k + 1][..k] == ts[..k];
  }

  lemma {:induction false} SmallUpTo(ts: seq<Turn>, n: nat)
    requires n <= |ts| && forall k :: 0 <= k < n ==> !OverfillsAt(ts, k)
    ensures SmallAt(ts, n)
  {
    if n > 0 {
      SmallUpTo(ts, n - 1);
      NextTurn(ts, n - 1);
      assert !OverfillsAt(ts, n - 1) && ts[..n - 1 + 1] == ts[..n];
      FillsIff(AfterTurns(ts[..n - 1]), ts[n - 1]);
    }
  }

  /** Over a run the batch stays below the flush size after every turn if and only if
      no turn overfills it. */
  lemma BatchStaysSmall(ts: seq<Turn>)
    ensures (forall k :: 0 <= k <= |ts| ==> SmallAt(ts, k)) <==> (forall k :: 0 <= k < |ts| ==> !OverfillsAt(ts, k))
  {
    if forall k :: 0 <= k < |ts| ==> !OverfillsAt(ts, k) {
      forall k | 0 <= k <= |ts| ensures SmallAt(ts, k) {
        SmallUpTo(ts, k);
      }
    } else {
      var k :| 0 <= k < |ts| && OverfillsAt(ts, k);
      NextTurn(ts, k);
      FillsIff(AfterTurns(ts[..k]), ts[k]);
      assert !SmallAt(ts, k + 1);
    }
  }

  /** And once writes keep failing there is no limit to it. */
  lemma {:induction false} BatchGrows(n: nat) returns (ts: seq<Turn>)
    ensures |AfterTurns(ts).batch.samples| == n && !AfterTurns(ts).stopped
  {
    if n == 0 {
      ts := [];
    } else {
      var before := BatchGrows(n - 1);
      var m := Message(n, Some(Sample("", "", 0, 0, 0)));
      ts := before + [Turn(false, Fetched(m), 0, 0, Transient)];
      assert ts[..|ts| - 1] == before;
    }
  }

  // ---------------------------------------------------------------------------
  // Offsets committed past pending ones.

  /** Messages are fetched in the order of their offsets. */
  predicate Ascending(ms: seq<Message>) {
    forall j, k :: 0 <= j < k < |ms| ==> ms[j].offset < ms[k].offset
  }

  predicate Above(ms: seq<Message>, m: Message) {
    forall k :: 0 <= k < |ms| ==> ms[k].offset < m.offset
  }

  /** Some committed offset lies above one still pending. */
  predicate Overtaken(committed: seq<Message>, pending: seq<Message>) {
    exists j, k :: 0 <= j < |committed| && 0 <= k < |pending| && pending[k].offset < committed[j].offset
  }

  function CommittedBy(ts: seq<Turn>): seq<Message> {
    Tally(AfterTurns(ts).effects).committed
  }

  predicate Drops(s: State, t: Turn) {
    Takes(s, t) && t.poll.msg.payload.None?
  }

  /** An unreadable message was taken while the batch that is pending now was. */
  predicate DroppedOver(ts: seq<Turn>) {
    && |ts| > 0 && AfterTurns(ts).batch.messages != []
    && (DroppedOver(ts[..|ts| - 1]) || Drops(AfterTurns(ts[..|ts| - 1]), ts[|ts| - 1]))
  }

  lemma {:induction false} TakenBelow(ts: seq<Turn>)
    requires |ts| > 0 && Ascending(Taken(ts)) && Takes(AfterTurns(ts[..|ts| - 1]), ts[|ts| - 1])
    ensures Above(CommittedBy(ts[..|ts| - 1]), ts[|ts| - 1].poll.msg)
    ensures Above(AfterTurns(ts[..|ts| - 1]).batch.messages, ts[|ts| - 1].poll.msg)
  {
    var before, m := ts[..|ts| - 1], ts[|ts| - 1].poll.msg;
    CommittedOnce(before);
    var taken := Taken(before);
    assert Taken(ts)[|taken|] == m && forall k :: 0 <= k < |taken| ==> Taken(ts)[k] == taken[k];
    AllFrom(CommittedBy(before), taken, m);
    AllFrom(AfterTurns(before).batch.messages, taken, m);
  }

  lemma AllFrom(xs: seq<Message>, taken: seq<Message>, m: Message)
    requires multiset(xs) <= multiset(taken) && Above(taken, m)
    ensures Above(xs, m)
  {
    forall k | 0 <= k < |xs| ensures xs[k].offset < m.offset {
      assert xs[k] in multiset(xs);
      assert xs[k] in taken;
    }
  }

  lemma OvertakenByDrop(committed: seq<Message>, pending: seq<Message>, m: Message)
    requires pending != [] && Above(pending, m)
    ensures Overtaken(committed + [m], pending)
  {
    assert (committed + [m])[|committed|] == m && pending[0].offset < m.offset;
  }

  lemma NotByAdd(committed: seq<Message>, pending: seq<Message>, m: Message)
    requires Above(committed, m)
    ensures Overtaken(committed, pending + [m]) <==> Overtaken(committed, pending)
  {
    if Overtaken(committed, pending) {
      var j, k :| 0 <= j < |committed| && 0 <= k < |pending| && pending[k].offset < committed[j].offset;
      assert (pending + [m])[k] == pending[k];
    }
  }

  /** What a turn does to the committed and the pending, if any are pending after it. */
  lemma TurnOffsets(s: State, t: Turn)
    requires Aligned(s.batch) && Turned(s, t).batch.messages != []
    ensures var c, d := Tally(s.effects).committed, Tally(Turned(s, t).effects).committed;
      var p, q := s.batch.messages, Turned(s, t).batch.messages;
      if Drops(s, t) then d == c + [t.poll.msg] && q == p
      else d == c && q == if Takes(s, t) then p + [t.poll.msg] else p
  {
    ReadableAll(s.batch.messages);
    if Drops(s, t) {
      DropTally(s.effects, t.poll.msg);
    } else if Takes(s, t) {
      var queued := Queued(s, t.poll.msg, t.addedAt);
      if Due(queued.batch, t.checkedAt) {
        FlushKept(queued, t.outcome);
      }
    } else if Turned(s, t).effects != s.effects {
      FlushKept(s, t.outcome);
    }
  }

  lemma FlushKept(s: State, o: Outcome)
    requires Flushed(s, o).batch.messages != []
    ensures Tally(Flushed(s, o).effects).committed == Tally(s.effects).committed && Flushed(s, o).batch == s.batch
  {
    if |s.batch.samples| > 0 {
      FlushTally(s, o);
    }
  }

  /** A committed offset lies above a pending one if and only if an unreadable message
      was taken, and so committed at once, while that batch was pending. */
  lemma {:induction false} OvertakenIff(ts: seq<Turn>)
    requires Ascending(Taken(ts))
    ensures Overtaken(CommittedBy(ts), AfterTurns(ts).batch.messages) <==> DroppedOver(ts)
  {
    if |ts| > 0 && AfterTurns(ts).batch.messages != [] {
      var before, t := ts[..|ts| - 1], ts[|ts| - 1];
      var s := AfterTurns(before);
      AscendingBefore(ts);
      OvertakenIff(before);
      SamplesConserved(before);
      TurnOffsets(s, t);
      if Takes(s, t) {
        TakenBelow(ts);
        OvertakenStep(CommittedBy(before), s.batch.messages, t.poll.msg, Drops(s, t));
      }
    }
  }

  lemma OvertakenStep(committed: seq<Message>, pending: seq<Message>, m: Message, drops: bool)
    requires Above(committed, m) && Above(pending, m)
    ensures drops && pending != [] ==> Overtaken(committed + [m], pending)
    ensures !drops ==> (Overtaken(committed, pending + [m]) <==> Overtaken(committed, pending))
  {
    if !drops {
      NotByAdd(committed, pending, m);
    } else if pending != [] {
      OvertakenByDrop(committed, pending, m);
    }
  }

  lemma AscendingBefore(ts: seq<Turn>)
    requires |ts| > 0 && Ascending(Taken(ts))
    ensures Ascending(Taken(ts[..|ts| - 1]))
  {
    var taken := Taken(ts[..|ts| - 1]);
    assert taken <= Taken(ts);
    assert forall k :: 0 <= k < |taken| ==> taken[k] == Taken(ts)[k];
  }

  /** Two turns are enough: a sample is pending, and what follows it is unreadable. */
  lemma OvertakingRun() returns (ts: seq<Turn>)
    ensures |ts| == 2 && Ascending(Taken(ts)) && DroppedOver(ts)
    ensures Overtaken(CommittedBy(ts), AfterTurns(ts).batch.messages)
  {
    var m0, m1 := Message(0, Some(Sample("", "", 0, 0, 0))), Message(1, None);
    var t0, t1 := Turn(false, Fetched(m0), 0, 0, Written), Turn(false, Fetched(m1), 0, 0, Written);
    ts := [t0, t1];
    TwoTurns(t0, t1);
    OvertakenIff(ts);
  }

  lemma TwoTurns(t0: Turn, t1: Turn)
    requires Takes(FRESH, t0) && t0.poll.msg.payload.Some? && t0.addedAt == t0.checkedAt
    requires Takes(FRESH, t1) && t1.poll.msg.payload.None?
    ensures var ts := [t0, t1]; Taken(ts) == [t0.poll.msg, t1.poll.msg] && DroppedOver(ts)
  {
    var ts := [t0, t1];
    assert ts[..1] == [t0] && [t0][..0] == [];
    assert AfterTurns([t0][..0]) == FRESH;
    var one := AfterTurns([t0]);
    assert one == Turned(FRESH, [t0][0]);
    assert one.batch.messages == [t0.poll.msg] && !one.stopped;
    assert AfterTurns(ts) == Turned(one, t1);
    assert Taken([t0]) == Taken([t0][..0]) + [t0.poll.msg];
  }
}
