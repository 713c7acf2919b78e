/** A lease that has ended is noticed by the next poll of its shard. */
module EnginePrompt {
  import opened Basics
  import opened WalCodec
  import opened EngineSpec
  import opened ShardInv
  import opened Books
  import opened EngineSteps
  import opened EngineRuns
  import Q = Queues
  import W = Wheels

  ghost predicate AllFresh(e: Engine) {
    forall i :: 0 <= i < NUM_SHARDS ==> W.Fresh(e.shards[i].wheel)
  }

  ghost predicate SameWheels(e: Engine, e': Engine) {
    forall i :: 0 <= i < NUM_SHARDS ==> e'.shards[i].wheel == e.shards[i].wheel
  }

  lemma {:induction false} RouteAllWheels(cfg: Config, e: Engine, limbo: seq<Limbo>, now: nat)
    ensures SameWheels(e, RouteAll(cfg, e, limbo, now))
  {
    if limbo != [] {
      var front := limbo[..|limbo| - 1];
      RouteAllWheels(cfg, e, front, now);
      RouteWheels(cfg, RouteAll(cfg, e, front, now), limbo[|limbo| - 1], now);
    }
  }

  lemma RouteWheels(cfg: Config, e: Engine, x: Limbo, now: nat)
    ensures SameWheels(e, Route(cfg, e, x, now))
  {
  }

  lemma PageRecordWheels(cfg: Config, e: Engine, r: WalRecord, now: nat)
    ensures SameWheels(e, PageRecord(cfg, e, r, now))
  {
  }

  lemma {:induction false} PageRecordsWheels(cfg: Config, e: Engine, records: seq<WalRecord>, now: nat)
    ensures SameWheels(e, PageRecords(cfg, e, records, now))
  {
    hide PageRecord;
    if records != [] {
      var front := records[..|records| - 1];
      PageRecordsWheels(cfg, e, front, now);
      PageRecordWheels(cfg, PageRecords(cfg, e, front, now), records[|records| - 1], now);
    }
  }

  lemma PageStepWheels(cfg: Config, e: Engine, target: string, now: nat, limit: nat, flushed: bool)
    ensures SameWheels(e, PageStep(cfg, e, target, now, limit, flushed).engine)
  {
    hide PageRecords, Grouped;
    var n := ChunkLen(e, limit);
    PageRecordsWheels(cfg, e.(spill := e.spill + n), Grouped(cfg, e.disk[e.spill..e.spill + n], NUM_SHARDS), now);
  }

  lemma {:induction false} PageInWheels(cfg: Config, e: Engine, target: string, now: nat, limit: nat, flushed: bool)
    ensures SameWheels(e, PageIn(cfg, e, target, now, limit, flushed))
    decreases |e.disk| - e.spill, if flushed then 0 else 1
  {
    PageStepWheels(cfg, e, target, now, limit, flushed);
    match PageStep(cfg, e, target, now, limit, flushed)
    case Stop(_) =>
    case Continue(e', flushed') => PageInWheels(cfg, e', target, now, limit, flushed');
  }

  lemma {:induction false} BatchWheels(cfg: Config, e: Engine, queue: string, items: seq<Item>, now: nat)
    ensures SameWheels(e, BatchItems(cfg, e, queue, items, now).engine)
  {
    if items != [] {
      BatchWheels(cfg, e, queue, items[..|items| - 1], now);
    }
  }

  /** An acknowledged lease is removed, the others are as before. */
  lemma SettleFresh(cfg: Config, home: Homes, e: Engine, queue: string, a: Receipted)
    requires Inv(cfg, home, e, []) && AllFresh(e) && CanAck(cfg, e, queue, a)
    ensures AllFresh(Settle(cfg, e, queue, a).engine)
  {
    hide Balanced, HotCount, Exact, W.LeaseOf, W.Represents;
    var i := ShardIdx(cfg, queue);
    var w := e.shards[i].wheel;
    assert OnePlace(e.shards[i], {});
    W.ConsistentRemove(w, a.id, a.receipt);
    RemoveFresh(w, a.id, a.receipt);
  }

  lemma RemoveFresh(w: W.Wheel, id: Id, receipt: Receipt)
    requires W.Consistent(w) && W.Fresh(w) && W.Valid(w, id, receipt)
    ensures W.Fresh(W.RemoveIfValid(w, id, receipt))
  {
    hide W.LeaseOf, W.Represents;
    W.ConsistentRemove(w, id, receipt);
  }

  lemma {:induction false} AcksFresh(cfg: Config, home: Homes, e: Engine, queue: string, acks: seq<Receipted>)
    requires Inv(cfg, home, e, []) && AllFresh(e)
    ensures var e' := AckItems(cfg, e, queue, acks).engine;
            Inv(cfg, home, e', []) && AllFresh(e')
  {
    hide Inv, AllFresh, Settle, CanAck;
    if acks != [] {
      var front, a := acks[..|acks| - 1], acks[|acks| - 1];
      AcksFresh(cfg, home, e, queue, front);
      var e1 := AckItems(cfg, e, queue, front).engine;
      if CanAck(cfg, e1, queue, a) {
        SettleInv(cfg, home, e1, queue, a);
        SettleFresh(cfg, home, e1, queue, a);
      }
    }
  }

  /** Collecting leaves no ended lease in the shard. */
  lemma ExpireFresh(sh: Shard, now: nat)
    requires OnePlace(sh, {}) && W.Fresh(sh.wheel) && 0 < now
    ensures W.Fresh(Expire(sh, now).shard.wheel) && Expire(sh, now).shard.wheel.lastChecked == now
  {
    hide Exact, Expire, W.LeasesOf, W.Collect, W.Represents;
    W.FreshCollect(sh.wheel, now);
    ExpireShard(sh, now);
  }

  lemma ReadyFresh(cfg: Config, home: Homes, e: Engine, queue: string, now: nat, max: nat)
    requires Inv(cfg, home, e, []) && AllFresh(e) && 0 < now
    ensures var e' := ReadyToClaim(cfg, e, queue, now, max);
            AllFresh(e') && ShardFor(cfg, e', queue).wheel.lastChecked == now
  {
    hide Balanced, OnePlace, HotCount, BookOf, Expire, RouteAll, PageIn, NeedsPageIn, W.Fresh;
    var i := ShardIdx(cfg, queue);
    var t := Expire(e.shards[i], now);
    ExpireFresh(e.shards[i], now);
    var e1 := Returned(cfg, e, queue, now);
    RouteAllWheels(cfg, WithShard(e, i, t.shard), t.limbo, now);
    PageInWheels(cfg, e1, queue, now, Max(Prefetch(max), 1000), false);
  }

  /** New leases end after the check of the poll that takes them out. */
  lemma LeasesFresh(was: W.Wheel, w: W.Wheel, ids: seq<Id>, until: nat)
    requires AddsLeases(was, w, ids, until) && W.Fresh(was) && 0 < was.lastChecked < until
    requires w.lastChecked == was.lastChecked
    ensures W.Fresh(w)
  {
    hide W.LeasesOf;
  }

  lemma {:induction false} LeaseAllChecked(sh: Shard, ids: seq<Id>, l: Lease, receipts: nat -> Receipt)
    ensures LeaseAll(sh, ids, l, receipts).shard.wheel.lastChecked == sh.wheel.lastChecked
  {
    if ids != [] {
      LeaseAllChecked(sh, ids[..|ids| - 1], l, receipts);
    }
  }

  lemma ClaimFresh(sh: Shard, l: Lease, max: nat, secs: seq<nat>, receipts: nat -> Receipt)
    requires OnePlace(sh, {}) && (l.queue in sh.queues ==> Q.IsDrainOrder(sh.queues[l.queue], l.now, secs))
    requires W.Fresh(sh.wheel) && sh.wheel.lastChecked == l.now && 0 < l.now < l.until
    ensures W.Fresh(ClaimFrom(sh, l, max, secs, receipts).shard.wheel)
    ensures ClaimFrom(sh, l, max, secs, receipts).shard.wheel.lastChecked == l.now
  {
    hide OnePlace, W.Fresh, CountsUp, Reports, Receipts, AddsLeases, LeaseAll, Q.IsDrainOrder, Claim, Q.Drain;
    var ids := ClaimShape(sh, l, max, secs, receipts);
    var r := ClaimFrom(sh, l, max, secs, receipts);
    if l.queue in sh.queues {
      var c := Claim(Q.Drain(sh.queues[l.queue], l.now, secs), max);
      LeaseAllChecked(sh.(queues := sh.queues[l.queue := c.queue]), c.ids, l, receipts);
    }
    LeasesFresh(sh.wheel, r.shard.wheel, ids, l.until);
  }

  /** The clock is past zero and every lease lasts at least a second. */
  ghost predicate RealLeases(cfg: Config, c: Call) {
    c.op.PollOp? ==> 0 < c.now && 0 < Timeout(cfg, c.op.visibility)
  }

  lemma PollFresh(cfg: Config, home: Homes, e: Engine, c: Call)
    requires Inv(cfg, home, e, []) && AllFresh(e) && c.op.PollOp? && Allowed(cfg, home, e, c) && RealLeases(cfg, c)
    requires Inv(cfg, home, ReadyToClaim(cfg, e, c.op.queue, c.now, c.op.max), [])
    ensures var e' := Step(cfg, e, c).engine;
            AllFresh(e') && ShardFor(cfg, e', c.op.queue).wheel.lastChecked == c.now
  {
    hide Balanced, OnePlace, HotCount, BookOf, ReadyToClaim, ClaimFrom, W.Fresh;
    var q, now := c.op.queue, c.now;
    var e1 := ReadyToClaim(cfg, e, q, now, c.op.max);
    ReadyFresh(cfg, home, e, q, now, c.op.max);
    ClaimFresh(ShardFor(cfg, e1, q), Lease(q, now, now + Timeout(cfg, c.op.visibility)), c.op.max, c.op.secs,
      c.op.receipts);
  }

  lemma SameFresh(e: Engine, e': Engine)
    requires AllFresh(e) && SameWheels(e, e')
    ensures AllFresh(e')
  {
    hide W.Fresh;
  }

  lemma StepFresh(cfg: Config, home: Homes, e: Engine, c: Call)
    requires Inv(cfg, home, e, []) && AllFresh(e) && Allowed(cfg, home, e, c) && RealLeases(cfg, c)
    ensures AllFresh(Step(cfg, e, c).engine)
    ensures c.op.PollOp? ==> ShardFor(cfg, Step(cfg, e, c).engine, c.op.queue).wheel.lastChecked == c.now
  {
    hide Inv, AllFresh, Settle, CanAck, Poll, Lists, ShouldCompact;
    match c.op
    case PushOp(q, item) =>
      PushWheels(cfg, e, q, item, c.now);
      SameFresh(e, Step(cfg, e, c).engine);
    case PushBatchOp(q, items, survivors) =>
      BatchWheels(cfg, e, q, items, c.now);
      CompactWheels(cfg, BatchItems(cfg, e, q, items, c.now).engine, survivors);
      SameFresh(e, BatchItems(cfg, e, q, items, c.now).engine);
      SameFresh(BatchItems(cfg, e, q, items, c.now).engine, Step(cfg, e, c).engine);
    case PollOp(q, _, max, _, _) =>
      ReadyInv(cfg, home, e, q, c.now, max);
      PollFresh(cfg, home, e, c);
    case AckOp(q, a) =>
      if CanAck(cfg, e, q, a) {
        SettleFresh(cfg, home, e, q, a);
      }
    case AckBatchOp(q, acks, survivors) =>
      AcksFresh(cfg, home, e, q, acks);
      CompactWheels(cfg, AckItems(cfg, e, q, acks).engine, survivors);
      SameFresh(AckItems(cfg, e, q, acks).engine, Step(cfg, e, c).engine);
  }

  lemma PushWheels(cfg: Config, e: Engine, q: string, item: Item, now: nat)
    ensures SameWheels(e, PushOne(cfg, e, q, item, now).engine)
  {
  }

  lemma CompactWheels(cfg: Config, e: Engine, survivors: seq<WalRecord>)
    ensures SameWheels(e, MaybeCompact(cfg, e, survivors))
  {
  }

  lemma ReadyInv(cfg: Config, home: Homes, e: Engine, queue: string, now: nat, max: nat)
    requires Inv(cfg, home, e, [])
    ensures Inv(cfg, home, ReadyToClaim(cfg, e, queue, now, max), [])
  {
    hide Inv, Returned, PageIn, NeedsPageIn;
    ReturnedInv(cfg, home, e, queue, now);
    var e1 := Returned(cfg, e, queue, now);
    if NeedsPageIn(cfg, e1, queue, max) {
      PageInInv(cfg, home, e1, queue, now, Max(Prefetch(max), 1000), false);
    }
  }

  lemma {:induction false} RunFresh(cfg: Config, home: Homes, calls: seq<Call>)
    requires AllowedRun(cfg, home, calls) && forall k :: 0 <= k < |calls| ==> RealLeases(cfg, calls[k])
    ensures AllFresh(Run(cfg, calls).engine)
  {
    hide Inv, AllFresh, Step, Allowed, RealLeases;
    if |calls| == 0 {
      NewFresh();
    } else {
      var front, c := calls[..|calls| - 1], calls[|calls| - 1];
      RunFresh(cfg, home, front);
      var s := RunLife(cfg, home, front, 0);
      StepFresh(cfg, home, Run(cfg, front).engine, c);
    }
  }

  lemma NewFresh()
    ensures AllFresh(NewEngine())
  {
  }

  /** In every run a poll at `now` leaves no lease in its shard that has ended by then: each such
      message is back in a queue, moved to a dead-letter queue, or handed out anew. */
  lemma PromptExpiry(cfg: Config, home: Homes, calls: seq<Call>)
    requires AllowedRun(cfg, home, calls) && (forall k :: 0 <= k < |calls| ==> RealLeases(cfg, calls[k]))
    requires 0 < |calls| && calls[|calls| - 1].op.PollOp?
    ensures var c := calls[|calls| - 1];
            var w := ShardFor(cfg, Run(cfg, calls).engine, c.op.queue).wheel;
            W.Shaped(w) && forall id :: id in w.index ==> c.now < W.LeasesOf(w)[id].expireAt
  {
    hide Inv, Step, Allowed, RealLeases, W.LeasesOf;
    var front, c := calls[..|calls| - 1], calls[|calls| - 1];
    RunFresh(cfg, home, front);
    var s := RunLife(cfg, home, front, 0);
    StepFresh(cfg, home, Run(cfg, front).engine, c);
  }
}
