/** Whole runs of the engine: any sequence of push, push_batch, poll, ack and ack_batch calls from an
    empty engine, with page-in and compaction wherever the code triggers them. */
module EngineRuns {
  import opened Basics
  import opened WalCodec
  import opened EngineSpec
  import opened ShardInv
  import opened Books
  import opened EngineSteps
  import opened Lifecycle
  import opened EngineLife
  import Q = Queues

  // ---------------------------------------------------------------- runs

  datatype Op =
    | PushOp(queue: string, item: Item)
    | PushBatchOp(queue: string, items: seq<Item>, survivors: seq<WalRecord>)
    | PollOp(queue: string, visibility: nat, max: nat, secs: seq<nat>, receipts: nat -> Receipt)
    | AckOp(queue: string, ack: Receipted)
    | AckBatchOp(queue: string, acks: seq<Receipted>, survivors: seq<WalRecord>)

  /** One call, with what the clock, the receipt generator and the hash maps contribute to it. */
  datatype Call = Call(now: nat, op: Op)

  function Step(cfg: Config, e: Engine, c: Call): Outcome {
    match c.op
    case PushOp(q, item) => PushOne(cfg, e, q, item, c.now)
    case PushBatchOp(q, items, survivors) => PushBatch(cfg, e, q, items, c.now, survivors)
    case PollOp(q, visibility, max, secs, receipts) => Poll(cfg, e, q, c.now, visibility, max, secs, receipts)
    case AckOp(q, a) => AckOne(cfg, e, q, a)
    case AckBatchOp(q, acks, survivors) => AckBatch(cfg, e, q, acks, survivors)
  }

  ghost predicate Lists(cfg: Config, e: Engine, survivors: seq<WalRecord>) {
    ShouldCompact(cfg, e) ==> IsSurvivorList(e, survivors)
  }

  /** Each id is pushed to its home queue only, and the hash maps are iterated over their contents. */
  ghost predicate Allowed(cfg: Config, home: Homes, e: Engine, c: Call) {
    match c.op
    case PushOp(q, item) => q == home(item.id)
    case PushBatchOp(q, items, survivors) =>
      && (forall k :: 0 <= k < |items| ==> q == home(items[k].id))
      && Lists(cfg, BatchItems(cfg, e, q, items, c.now).engine, survivors)
    case PollOp(q, _, max, secs, _) =>
      var qs := ShardFor(cfg, ReadyToClaim(cfg, e, q, c.now, max), q).queues;
      q in qs ==> Q.IsDrainOrder(qs[q], c.now, secs)
    case AckOp(_, _) => true
    case AckBatchOp(q, acks, survivors) => Lists(cfg, AckItems(cfg, e, q, acks).engine, survivors)
  }

  datatype History = History(engine: Engine, log: seq<Entry>)

  ghost function Run(cfg: Config, calls: seq<Call>): History {
    if |calls| == 0 then History(NewEngine(), [])
    else
      var before, c := Run(cfg, calls[..|calls| - 1]), calls[|calls| - 1];
      var o := Step(cfg, before.engine, c);
      History(o.engine, before.log + [Entry(c.now, o.events)])
  }

  ghost predicate AllowedRun(cfg: Config, home: Homes, calls: seq<Call>) {
    |calls| == 0 ||
    (var front := calls[..|calls| - 1];
     AllowedRun(cfg, home, front) && Allowed(cfg, home, Run(cfg, front).engine, calls[|calls| - 1]))
  }

  // ---------------------------------------------------------------- one call

  /** The call keeps the invariant and treats message `id`, which stood at `s`, as its life allows. */
  ghost predicate Sound(cfg: Config, home: Homes, e: Engine, o: Outcome, now: nat, id: Id, s: Status) {
    var mine := Project(o.events, id);
    Inv(cfg, home, o.engine, []) && Accepts(home(id), s, mine, now)
      && Has(cfg, home, o.engine, [], id, FireAll(s, mine))
  }

  lemma NothingHappened(cfg: Config, home: Homes, e: Engine, now: nat, id: Id, s: Status)
    requires Inv(cfg, home, e, []) && Has(cfg, home, e, [], id, s)
    ensures Sound(cfg, home, e, Outcome(e, []), now, id, s)
  {
    hide Inv, Has;
  }

  lemma CompactSound(cfg: Config, home: Homes, e: Engine, o: Outcome, survivors: seq<WalRecord>, now: nat, id: Id,
                     s: Status)
    requires Sound(cfg, home, e, o, now, id, s) && Lists(cfg, o.engine, survivors)
    ensures Sound(cfg, home, e, Outcome(MaybeCompact(cfg, o.engine, survivors), o.events), now, id, s)
  {
    hide Inv, Has, ShouldCompact, IsSurvivorList;
    CompactInv(cfg, home, o.engine, survivors);
    DiskLife(cfg, home, o.engine, MaybeCompact(cfg, o.engine, survivors), [], id, FireAll(s, Project(o.events, id)));
  }

  lemma ThenSound(cfg: Config, home: Homes, e: Engine, a: Outcome, b: Outcome, now: nat, id: Id, s: Status)
    requires Sound(cfg, home, e, a, now, id, s)
    requires Sound(cfg, home, a.engine, b, now, id, FireAll(s, Project(a.events, id)))
    ensures Sound(cfg, home, e, Outcome(b.engine, a.events + b.events), now, id, s)
  {
    hide Inv, Has;
    ProjectSplit(a.events, b.events, id);
    AcceptsThen(home(id), s, Project(a.events, id), Project(b.events, id), now);
  }

  lemma AdmitSound(cfg: Config, home: Homes, e: Engine, queue: string, item: Item, now: nat, id: Id, s: Status)
    requires Inv(cfg, home, e, []) && Has(cfg, home, e, [], id, s) && queue == home(item.id)
    requires !Seen(cfg, e, queue, item.id)
    ensures Sound(cfg, home, e, Admit(cfg, Log(e, PushRecord(queue, item, now)), queue, item, now), now, id, s)
  {
    hide Inv, Has, Admit;
    AdmitInv(cfg, home, e, queue, item, now);
    AdmitLife(cfg, home, e, queue, item, now, id, s);
  }

  lemma PushSound(cfg: Config, home: Homes, e: Engine, queue: string, item: Item, now: nat, id: Id, s: Status)
    requires Inv(cfg, home, e, []) && Has(cfg, home, e, [], id, s) && queue == home(item.id)
    ensures Sound(cfg, home, e, PushOne(cfg, e, queue, item, now), now, id, s)
  {
    hide Inv, Has, Admit;
    var r := PushRecord(queue, item, now);
    if Seen(cfg, e, queue, item.id) {
      DuplicateInv(cfg, home, e, r);
      DiskLife(cfg, home, e, Log(e, r), [], id, s);
    } else {
      AdmitSound(cfg, home, e, queue, item, now, id, s);
    }
  }

  lemma {:induction false} BatchSound(cfg: Config, home: Homes, e: Engine, queue: string, items: seq<Item>,
                                      now: nat, id: Id, s: Status)
    requires Inv(cfg, home, e, []) && Has(cfg, home, e, [], id, s)
    requires forall k :: 0 <= k < |items| ==> queue == home(items[k].id)
    ensures Sound(cfg, home, e, BatchItems(cfg, e, queue, items, now), now, id, s)
  {
    hide Inv, Has, Admit;
    if items == [] {
      NothingHappened(cfg, home, e, now, id, s);
    } else {
      var front, item := items[..|items| - 1], items[|items| - 1];
      BatchSound(cfg, home, e, queue, front, now, id, s);
      var a := BatchItems(cfg, e, queue, front, now);
      var s1 := FireAll(s, Project(a.events, id));
      if Seen(cfg, a.engine, queue, item.id) {
        NothingHappened(cfg, home, a.engine, now, id, s1);
      } else {
        AdmitSound(cfg, home, a.engine, queue, item, now, id, s1);
      }
      ThenSound(cfg, home, e, a, BatchItem(cfg, a.engine, queue, item, now), now, id, s);
    }
  }

  lemma SettleSound(cfg: Config, home: Homes, e: Engine, queue: string, a: Receipted, now: nat, id: Id, s: Status)
    requires Inv(cfg, home, e, []) && Has(cfg, home, e, [], id, s) && CanAck(cfg, e, queue, a)
    ensures Sound(cfg, home, e, Settle(cfg, e, queue, a), now, id, s)
  {
    hide Inv, Has, Settle;
    SettleInv(cfg, home, e, queue, a);
    SettleLife(cfg, home, e, queue, a, now, id, s);
  }

  lemma {:induction false} AcksSound(cfg: Config, home: Homes, e: Engine, queue: string, acks: seq<Receipted>,
                                     now: nat, id: Id, s: Status)
    requires Inv(cfg, home, e, []) && Has(cfg, home, e, [], id, s)
    ensures Sound(cfg, home, e, AckItems(cfg, e, queue, acks), now, id, s)
  {
    hide Inv, Has, Settle, CanAck;
    if acks == [] {
      NothingHappened(cfg, home, e, now, id, s);
    } else {
      var front, a := acks[..|acks| - 1], acks[|acks| - 1];
      AcksSound(cfg, home, e, queue, front, now, id, s);
      var o := AckItems(cfg, e, queue, front);
      var s1 := FireAll(s, Project(o.events, id));
      if CanAck(cfg, o.engine, queue, a) {
        SettleSound(cfg, home, o.engine, queue, a, now, id, s1);
      } else {
        NothingHappened(cfg, home, o.engine, now, id, s1);
      }
      ThenSound(cfg, home, e, o, AckOne(cfg, o.engine, queue, a), now, id, s);
    }
  }

  /** What a poll does before it claims. */
  lemma ReadyLife(cfg: Config, home: Homes, e: Engine, queue: string, now: nat, max: nat, id: Id,
                  s: Status) returns (s': Status)
    requires Inv(cfg, home, e, []) && Has(cfg, home, e, [], id, s) && !s.Returning?
    ensures var e' := ReadyToClaim(cfg, e, queue, now, max);
            Inv(cfg, home, e', []) && Has(cfg, home, e', [], id, s') && Silent(cfg, home(id), s, s', now)
              && !s'.Returning?
    ensures s' == s || s.OnLease? || Offered(e.disk, id, now)
  {
    hide Inv, Has, Expire, NeedsPageIn, Offered;
    s' := ReturnedLife(cfg, home, e, queue, now, id, s);
    var e1 := Returned(cfg, e, queue, now);
    if NeedsPageIn(cfg, e1, queue, max) {
      PageInInv(cfg, home, e1, queue, now, Max(Prefetch(max), 1000), false);
      s' := PageInLife(cfg, home, e1, queue, now, Max(Prefetch(max), 1000), false, id, s');
    }
  }

  lemma ReturnedLife(cfg: Config, home: Homes, e: Engine, queue: string, now: nat, id: Id,
                     s: Status) returns (s': Status)
    requires Inv(cfg, home, e, []) && Has(cfg, home, e, [], id, s) && !s.Returning?
    ensures var e' := Returned(cfg, e, queue, now);
            Inv(cfg, home, e', []) && Has(cfg, home, e', [], id, s') && !s'.Returning?
    ensures s' == s || (s.OnLease? && s.until <= now && s' == InQueue(NextQueue(cfg, s.queue, s.count), s.count))
    ensures Returned(cfg, e, queue, now).disk == e.disk
  {
    hide Inv, Has, Expire;
    var i := ShardIdx(cfg, queue);
    var t := Expire(e.shards[i], now);
    var n := |t.limbo|;
    ExpireInv(cfg, home, e, i, now);
    s' := ExpireLife(cfg, home, e, i, now, id, s);
    RouteAllInv(cfg, home, WithShard(e, i, t.shard), t.limbo, n, now);
    s' := RouteAllLife(cfg, home, WithShard(e, i, t.shard), t.limbo, n, now, id, s');
    assert t.limbo[..n] == t.limbo && t.limbo[n..] == [];
    RoutedKeeps(cfg, WithShard(e, i, t.shard), t.limbo, now);
    NotReturning(cfg, home, Returned(cfg, e, queue, now), id, s');
  }

  lemma NotReturning(cfg: Config, home: Homes, e: Engine, id: Id, s: Status)
    requires Has(cfg, home, e, [], id, s)
    ensures !s.Returning?
  {
  }

  lemma PollSound(cfg: Config, home: Homes, e: Engine, c: Call, id: Id, s: Status) returns (s1: Status)
    requires Inv(cfg, home, e, []) && Has(cfg, home, e, [], id, s) && !s.Returning? && c.op.PollOp?
    requires Allowed(cfg, home, e, c)
    ensures Silent(cfg, home(id), s, s1, c.now) && Sound(cfg, home, e, Step(cfg, e, c), c.now, id, s1)
    ensures s1 == s || s.OnLease? || Offered(e.disk, id, c.now)
  {
    hide Inv, Has, ReadyToClaim, ClaimFrom, Offered;
    var q, now := c.op.queue, c.now;
    s1 := ReadyLife(cfg, home, e, q, now, c.op.max, id, s);
    var e1 := ReadyToClaim(cfg, e, q, now, c.op.max);
    var l := Lease(q, now, now + Timeout(cfg, c.op.visibility));
    ClaimInv(cfg, home, e1, l, c.op.max, c.op.secs, c.op.receipts);
    ClaimLife(cfg, home, e1, l, c.op.max, c.op.secs, c.op.receipts, id, s1);
  }

  lemma StepSound(cfg: Config, home: Homes, e: Engine, c: Call, id: Id, s: Status) returns (s1: Status)
    requires Inv(cfg, home, e, []) && Has(cfg, home, e, [], id, s) && Allowed(cfg, home, e, c)
    ensures Silent(cfg, home(id), s, s1, c.now) && Sound(cfg, home, e, Step(cfg, e, c), c.now, id, s1)
    ensures s1 == s || (c.op.PollOp? && (s.OnLease? || Offered(e.disk, id, c.now)))
  {
    hide Inv, Has, Offered, Sound, Lists, Admit, MaybeCompact, Settle, CanAck, Poll;
    s1 := s;
    match c.op
    case PushOp(q, item) =>
      PushSound(cfg, home, e, q, item, c.now, id, s);
    case PushBatchOp(q, items, survivors) =>
      BatchSound(cfg, home, e, q, items, c.now, id, s);
      CompactSound(cfg, home, e, BatchItems(cfg, e, q, items, c.now), survivors, c.now, id, s);
    case PollOp(_, _, _, _, _) =>
      NotReturning(cfg, home, e, id, s);
      s1 := PollSound(cfg, home, e, c, id, s);
    case AckOp(q, a) =>
      if CanAck(cfg, e, q, a) {
        SettleSound(cfg, home, e, q, a, c.now, id, s);
      } else {
        NothingHappened(cfg, home, e, c.now, id, s);
      }
    case AckBatchOp(q, acks, survivors) =>
      AcksSound(cfg, home, e, q, acks, c.now, id, s);
      CompactSound(cfg, home, e, AckItems(cfg, e, q, acks), survivors, c.now, id, s);
  }

  // ---------------------------------------------------------------- whole runs

  lemma NewInv(cfg: Config, home: Homes)
    ensures Inv(cfg, home, NewEngine(), [])
    ensures forall id :: Has(cfg, home, NewEngine(), [], id, Unseen)
  {
    hide OnePlace;
    NewShardOnePlace();
    NewCount(NUM_SHARDS);
    var b := BookOf(cfg, NewEngine(), []);
    assert forall s :: !InRam(cfg, NewEngine(), s);
    assert forall s: Spot :: s !in b.at;
  }

  /** Every run keeps every message to its life. */
  lemma {:induction false} RunLife(cfg: Config, home: Homes, calls: seq<Call>, id: Id) returns (s: Status)
    requires AllowedRun(cfg, home, calls)
    ensures var h := Run(cfg, calls);
            Inv(cfg, home, h.engine, []) && Has(cfg, home, h.engine, [], id, s) && Follows(cfg, home, id, h.log, s)
  {
    hide Inv, Has, Step, Allowed;
    if |calls| == 0 {
      NewInv(cfg, home);
      s := Unseen;
    } else {
      var front, c := calls[..|calls| - 1], calls[|calls| - 1];
      var before := Run(cfg, front);
      var s0 := RunLife(cfg, home, front, id);
      var s1 := StepSound(cfg, home, before.engine, c, id, s0);
      var o := Step(cfg, before.engine, c);
      s := FireAll(s1, Project(o.events, id));
      FollowsOn(cfg, home, id, before.log, Entry(c.now, o.events), s0, s1, s);
    }
  }

  lemma FollowsOn(cfg: Config, home: Homes, id: Id, log: seq<Entry>, call: Entry, s0: Status, s1: Status, s: Status)
    requires Follows(cfg, home, id, log, s0) && Turn(cfg, home(id), id, s0, s1, call, s)
    ensures Follows(cfg, home, id, log + [call], s)
  {
    hide Turn;
    Snoc(log, call);
    assert Turns(cfg, home(id), id, s0, call, s);
    assert FollowsThen(cfg, home, id, log, call, s);
  }
}
