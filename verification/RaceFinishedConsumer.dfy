/** The consumer of race.finished: reconcile, then commit or dead-letter, and let
    transient failures be redelivered. */
module RaceFinishedConsumer {
  import opened RoomModel
  import opened RoomLifecycle
  import opened RoomRanks
  import opened Shared
  import opened Store

  datatype Message = Garbled(bytes: string) | Decoded(raceId: RaceId, results: seq<ResultJson>)

  /** One delivery of a message, and how the database answers it. */
  datatype Delivery = Delivery(msg: Message, fault: Fault, permanent: bool)

  datatype Act = DeadLetter(msg: Message) | CommitOffset(msg: Message)

  predicate Applies(d: Delivery) {
    d.msg.Decoded? && !Strikes(d.fault, |d.msg.results|)
  }

  class Consumer {
    const db: Database
    var acts: seq<Act>

    constructor (db: Database)
      ensures this.db == db && acts == []
    {
      this.db := db;
      acts := [];
    }

    method ProcessRaceFinishedMessage(d: Delivery)
      modifies this, db`rows
      ensures db.rows == if Applies(d) then ReconcileRows(old(db.rows), d.msg.raceId, d.msg.results) else old(db.rows)
      ensures acts == old(acts) + ActsOf(d)
    {
      if d.msg.Garbled? {
        acts := acts + [DeadLetter(d.msg)];
        acts := acts + [CommitOffset(d.msg)];
        return;
      }
      var ok := db.ReconcileParticipantResults(d.msg.raceId, d.msg.results, d.fault);
      if !ok {
        if d.permanent {
          acts := acts + [DeadLetter(d.msg)];
          acts := acts + [CommitOffset(d.msg)];
          return;
        }
        return;
      }
      acts := acts + [CommitOffset(d.msg)];
    }

    method RunRaceFinishedLoop(ds: seq<Delivery>)
      modifies this, db`rows
      ensures db.rows == AfterDeliveries(old(db.rows), ds)
      ensures acts == old(acts) + AllActs(ds)
    {
      var k := 0;
      assert acts == acts + [];
      while k < |ds|
        invariant k <= |ds|
        invariant db.rows == AfterDeliveries(old(db.rows), ds[..k])
        invariant acts == old(acts) + AllActs(ds[..k])
      {
        ProcessRaceFinishedMessage(ds[k]);
        assert ds[..k + 1][..k] == ds[..k];
        k := k + 1;
      }
      assert ds[..k] == ds;
    }
  }

  function ActsOf(d: Delivery): seq<Act> {
    if Applies(d) then [CommitOffset(d.msg)]
    else if d.msg.Garbled? || d.permanent then [DeadLetter(d.msg), CommitOffset(d.msg)]
    else []
  }

  function AllActs(ds: seq<Delivery>): seq<Act> {
    if |ds| == 0 then [] else AllActs(ds[..|ds| - 1]) + ActsOf(ds[|ds| - 1])
  }

  function AfterDeliveries(rows: Rows, ds: seq<Delivery>): Rows {
    if |ds| == 0 then rows
    else
      var d := ds[|ds| - 1];
      var t := AfterDeliveries(rows, ds[..|ds| - 1]);
      if Applies(d) then ReconcileRows(t, d.msg.raceId, d.msg.results) else t
  }

  // ------------------------------------------------ what is never seen again

  /** Beyond repair: it cannot be read, or the database will never take it. */
  predicate Hopeless(d: Delivery) {
    match d.msg
    case Garbled(_) => true
    case Decoded(_, results) => d.permanent && Strikes(d.fault, |results|)
  }

  /** The transaction went through. */
  predicate TookEffect(d: Delivery) {
    d.msg.Decoded? && !Strikes(d.fault, |d.msg.results|)
  }

  function Committed(acts: seq<Act>): seq<Message> {
    if |acts| == 0 then []
    else
      var a := acts[|acts| - 1];
      Committed(acts[..|acts| - 1]) + if a.CommitOffset? then [a.msg] else []
  }

  function DeadLettered(acts: seq<Act>): seq<Message> {
    if |acts| == 0 then []
    else
      var a := acts[|acts| - 1];
      DeadLettered(acts[..|acts| - 1]) + if a.DeadLetter? then [a.msg] else []
  }

  function TheHopeless(ds: seq<Delivery>): seq<Message> {
    if |ds| == 0 then []
    else
      var d := ds[|ds| - 1];
      TheHopeless(ds[..|ds| - 1]) + if Hopeless(d) then [d.msg] else []
  }

  function TheSettled(ds: seq<Delivery>): seq<Message> {
    if |ds| == 0 then []
    else
      var d := ds[|ds| - 1];
      TheSettled(ds[..|ds| - 1]) + if Hopeless(d) || TookEffect(d) then [d.msg] else []
  }

  lemma OneMoreAct(acts: seq<Act>, a: Act)
    ensures Committed(acts + [a]) == Committed(acts) + if a.CommitOffset? then [a.msg] else []
    ensures DeadLettered(acts + [a]) == DeadLettered(acts) + if a.DeadLetter? then [a.msg] else []
  {
    assert (acts + [a])[..|acts|] == acts;
  }

  lemma OneDelivery(acts: seq<Act>, d: Delivery)
    ensures Committed(acts + ActsOf(d)) == Committed(acts) + if Hopeless(d) || TookEffect(d) then [d.msg] else []
    ensures DeadLettered(acts + ActsOf(d)) == DeadLettered(acts) + if Hopeless(d) then [d.msg] else []
  {
    if TookEffect(d) {
      OneMoreAct(acts, CommitOffset(d.msg));
    } else if Hopeless(d) {
      OneMoreAct(acts, DeadLetter(d.msg));
      OneMoreAct(acts + [DeadLetter(d.msg)], CommitOffset(d.msg));
      assert acts + ActsOf(d) == acts + [DeadLetter(d.msg)] + [CommitOffset(d.msg)];
    } else {
      assert acts + ActsOf(d) == acts;
    }
  }

  /** Over any deliveries, the offsets committed are exactly, in order, those of the
      messages beyond repair and of those whose reconcile took effect, and the dead
      letters are exactly those beyond repair. */
  lemma {:induction false} CommitsAreSettled(ds: seq<Delivery>)
    ensures Committed(AllActs(ds)) == TheSettled(ds)
    ensures DeadLettered(AllActs(ds)) == TheHopeless(ds)
  {
    if |ds| > 0 {
      CommitsAreSettled(ds[..|ds| - 1]);
      OneDelivery(AllActs(ds[..|ds| - 1]), ds[|ds| - 1]);
    }
  }

  /** Every dead letter has the commit of its offset right behind it. */
  ghost predicate CommitsNext(acts: seq<Act>) {
    forall k :: 0 <= k < |acts| && acts[k].DeadLetter? ==>
      k + 1 < |acts| && acts[k + 1] == CommitOffset(acts[k].msg)
  }

  lemma CommitsJoin(before: seq<Act>, now: seq<Act>)
    requires CommitsNext(before) && CommitsNext(now)
    ensures CommitsNext(before + now)
  {
    var acts := before + now;
    forall k | 0 <= k < |acts| && acts[k].DeadLetter?
      ensures k + 1 < |acts| && acts[k + 1] == CommitOffset(acts[k].msg)
    {
      if k < |before| {
        assert acts[k] == before[k] && acts[k + 1] == before[k + 1];
      } else {
        assert acts[k] == now[k - |before|];
      }
    }
  }

  /** A dead letter goes out before its offset is committed, and that follows at once. */
  lemma {:induction false} DeadLettersCommit(ds: seq<Delivery>)
    ensures CommitsNext(AllActs(ds))
  {
    if |ds| > 0 {
      DeadLettersCommit(ds[..|ds| - 1]);
      CommitsJoin(AllActs(ds[..|ds| - 1]), ActsOf(ds[|ds| - 1]));
    }
  }

  lemma {:induction false} Listed(acts: seq<Act>, m: Message)
    ensures CommitOffset(m) in acts <==> m in Committed(acts)
    ensures DeadLetter(m) in acts <==> m in DeadLettered(acts)
  {
    if |acts| > 0 {
      Listed(acts[..|acts| - 1], m);
      assert acts == acts[..|acts| - 1] + [acts[|acts| - 1]];
    }
  }

  lemma {:induction false} Delivered(ds: seq<Delivery>, m: Message)
    ensures m in TheHopeless(ds) <==> exists k :: 0 <= k < |ds| && ds[k].msg == m && Hopeless(ds[k])
    ensures m in TheSettled(ds) <==>
            exists k :: 0 <= k < |ds| && ds[k].msg == m && (Hopeless(ds[k]) || TookEffect(ds[k]))
  {
    if |ds| > 0 {
      Delivered(ds[..|ds| - 1], m);
    }
  }

  /** A message whose offset was committed and that was never dead-lettered has had its
      reconcile take effect: its results were applied to the rows as they then were. */
  lemma NothingDroppedUnseen(rows: Rows, ds: seq<Delivery>, m: Message) returns (k: nat)
    requires CommitOffset(m) in AllActs(ds) && DeadLetter(m) !in AllActs(ds)
    ensures k < |ds| && ds[k].msg == m && m.Decoded? && !Strikes(ds[k].fault, |m.results|)
    ensures AfterDeliveries(rows, ds[..k + 1]) == ReconcileRows(AfterDeliveries(rows, ds[..k]), m.raceId, m.results)
  {
    CommitsAreSettled(ds);
    Listed(AllActs(ds), m);
    Delivered(ds, m);
    k :| 0 <= k < |ds| && ds[k].msg == m && (Hopeless(ds[k]) || TookEffect(ds[k]));
    assert ds[..k + 1][..k] == ds[..k];
  }

  /** And a delivery that leaves its offset uncommitted changes no row. */
  lemma UncommittedChangesNothing(rows: Rows, ds: seq<Delivery>, d: Delivery)
    requires AllActs(ds + [d]) == AllActs(ds)
    ensures AfterDeliveries(rows, ds + [d]) == AfterDeliveries(rows, ds)
    ensures d.msg.Decoded? && !d.permanent && Strikes(d.fault, |d.msg.results|)
  {
    assert (ds + [d])[..|ds|] == ds;
  }

  // ---------------------------------------------------------- what it comes to

  /** Every delivery is of this race's own results, or unreadable. */
  predicate Copies(ds: seq<Delivery>, raceId: RaceId, rs: seq<ParticipantResult>) {
    forall k :: 0 <= k < |ds| ==> ds[k].msg.Garbled? || ds[k].msg == Decoded(raceId, ToJson(rs))
  }

  predicate SomeApplies(ds: seq<Delivery>) {
    exists k :: 0 <= k < |ds| && Applies(ds[k])
  }

  /** Without a finish, any number of deliveries does what the first that applies does. */
  lemma {:induction false} ManyDeliveriesAreOne(
      rows: Rows, raceId: RaceId, rs: seq<ParticipantResult>, ds: seq<Delivery>)
    requires Copies(ds, raceId, rs)
    ensures AfterDeliveries(rows, ds) == if SomeApplies(ds) then ReconcileRows(rows, raceId, ToJson(rs)) else rows
  {
    if |ds| > 0 {
      var before := ds[..|ds| - 1];
      ManyDeliveriesAreOne(rows, raceId, rs, before);
      ReconcileTwice(rows, raceId, ToJson(rs));
      assert forall k :: 0 <= k < |before| ==> before[k] == ds[k];
      if k :| 0 <= k < |before| && Applies(before[k]) {
        assert Applies(ds[k]);
      }
    }
  }

  /** Deliveries before the finish leave no trace once it is done. */
  lemma EarlyDeliveriesHarmless(rows: Rows, raceId: RaceId, rs: seq<ParticipantResult>, ds: seq<Delivery>)
    requires Copies(ds, raceId, rs)
    ensures FinishRows(AfterDeliveries(rows, ds), raceId, rs) == FinishRows(rows, raceId, rs)
  {
    ManyDeliveriesAreOne(rows, raceId, rs, ds);
    FinishAfterReconcile(rows, raceId, rs);
  }

  /** After the finish, any number of deliveries changes nothing if and only if none
      applies, or no user who has a row is listed first with a rank and last without. */
  lemma LateDeliveriesHarmless(rows: Rows, raceId: RaceId, rs: seq<ParticipantResult>, ds: seq<Delivery>)
    requires Copies(ds, raceId, rs)
    ensures AfterDeliveries(FinishRows(rows, raceId, rs), ds) == FinishRows(rows, raceId, rs)
       <==> !SomeApplies(ds) || forall u :: (raceId, u) in rows ==> Steady(rs, u)
  {
    ManyDeliveriesAreOne(FinishRows(rows, raceId, rs), raceId, rs, ds);
    ReconcileAfterFinish(rows, raceId, rs);
  }

  /** What an actor publishes in any run is what it has just persisted, ranks and all. */
  lemma PublishedIsPersisted(target: int, startedAt: int, ins: seq<Input>, k: nat)
    requires HonestRun(Opened(target, startedAt), ins)
    requires var trace := Run(Opened(target, startedAt), ins).trace; k < |trace| && trace[k].PublishFinished?
    ensures var trace := Run(Opened(target, startedAt), ins).trace;
      k > 0 && trace[k - 1] == FinishCall(trace[k].results, true) && AllRanked(trace[k].results)
  {
    EveryPublishFollows(target, startedAt, ins);
    EveryFinishFair(target, startedAt, ins);
    var r := Run(Opened(target, startedAt), ins);
    assert PublishFollows(r.trace, k);
    assert FairFinish(r.trace[k - 1], r.people.total);
  }

  /** So, however often the actor's message is delivered before and after its write,
      the rows end as that write leaves them. */
  lemma DeliveriesOfTheActor(target: int, startedAt: int, ins: seq<Input>, k: nat, rows: Rows, raceId: RaceId,
                             early: seq<Delivery>, late: seq<Delivery>)
    requires HonestRun(Opened(target, startedAt), ins)
    requires var trace := Run(Opened(target, startedAt), ins).trace; k < |trace| && trace[k].PublishFinished?
    requires var rs := Run(Opened(target, startedAt), ins).trace[k].results;
      Copies(early, raceId, rs) && Copies(late, raceId, rs)
    ensures var rs := Run(Opened(target, startedAt), ins).trace[k].results;
      AfterDeliveries(FinishRows(AfterDeliveries(rows, early), raceId, rs), late) == FinishRows(rows, raceId, rs)
  {
    var rs := Run(Opened(target, startedAt), ins).trace[k].results;
    PublishedIsPersisted(target, startedAt, ins, k);
    EarlyDeliveriesHarmless(rows, raceId, rs, early);
    forall u ensures Steady(rs, u) {
      SteadyResults(rs, u);
    }
    LateDeliveriesHarmless(rows, raceId, rs, late);
  }
}
