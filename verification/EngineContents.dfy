/** What the messages in RAM and the records on disk hold, over every step of the engine. */
module EngineContents {
  import opened Basics
  import opened WalCodec
  import opened EngineSpec
  import opened ShardInv
  import opened Books
  import opened EngineSteps
  import opened EngineRuns
  import Q = Queues

  /** A property of an id, the time a message becomes visible, and its payload. */
  type Content = (Id, nat, Bytes) -> bool

  ghost predicate RecordsHold(disk: seq<WalRecord>, p: Content) {
    forall k :: 0 <= k < |disk| && disk[k].Push? ==> p(disk[k].id, disk[k].visibleAt, disk[k].payload)
  }

  ghost predicate ShardHolds(sh: Shard, p: Content) {
    forall id :: id in sh.messages ==> p(id, sh.messages[id].visibleAt, sh.messages[id].payload)
  }

  /** Every message in RAM and every Push record on disk has the property. */
  ghost predicate Holding(e: Engine, p: Content) {
    RecordsHold(e.disk, p) && forall i :: 0 <= i < NUM_SHARDS ==> ShardHolds(e.shards[i], p)
  }

  ghost predicate LimboHolds(limbo: seq<Limbo>, now: nat, p: Content) {
    forall k :: 0 <= k < |limbo| ==> p(limbo[k].id, now, limbo[k].msg.payload)
  }

  lemma HoldingWith(e: Engine, i: nat, sh: Shard, p: Content)
    requires Holding(e, p) && i < NUM_SHARDS && ShardHolds(sh, p)
    ensures Holding(WithShard(e, i, sh), p)
  {
  }

  lemma HoldingNew(p: Content)
    ensures Holding(NewEngine(), p)
  {
  }

  lemma HoldingLog(e: Engine, r: WalRecord, p: Content)
    requires Holding(e, p) && (r.Push? ==> p(r.id, r.visibleAt, r.payload))
    ensures Holding(Log(e, r), p)
  {
  }

  lemma HoldingAdmit(cfg: Config, e: Engine, queue: string, item: Item, now: nat, p: Content)
    requires Holding(e, p) && p(item.id, now + item.delay, item.payload)
    ensures Holding(Admit(cfg, Log(e, PushRecord(queue, item, now)), queue, item, now).engine, p)
  {
  }

  lemma {:induction false} HoldingBatch(cfg: Config, e: Engine, queue: string, items: seq<Item>, now: nat, p: Content)
    requires Holding(e, p) && forall k :: 0 <= k < |items| ==> p(items[k].id, now + items[k].delay, items[k].payload)
    ensures Holding(BatchItems(cfg, e, queue, items, now).engine, p)
  {
    hide Holding, Admit;
    if items != [] {
      var front := items[..|items| - 1];
      HoldingBatch(cfg, e, queue, front, now, p);
      HoldingAdmit(cfg, BatchItems(cfg, e, queue, front, now).engine, queue, items[|items| - 1], now, p);
    }
  }

  lemma HoldingSettle(cfg: Config, e: Engine, queue: string, a: Receipted, p: Content)
    requires Holding(e, p)
    ensures Holding(Settle(cfg, e, queue, a).engine, p)
  {
  }

  lemma {:induction false} HoldingAcks(cfg: Config, e: Engine, queue: string, acks: seq<Receipted>, p: Content)
    requires Holding(e, p)
    ensures Holding(AckItems(cfg, e, queue, acks).engine, p)
  {
    hide Holding, Settle;
    if acks != [] {
      var front := acks[..|acks| - 1];
      HoldingAcks(cfg, e, queue, front, p);
      HoldingSettle(cfg, AckItems(cfg, e, queue, front).engine, queue, acks[|acks| - 1], p);
    }
  }

  lemma HoldingCompact(cfg: Config, e: Engine, survivors: seq<WalRecord>, p: Content)
    requires Holding(e, p) && Lists(cfg, e, survivors)
    ensures Holding(MaybeCompact(cfg, e, survivors), p)
  {
    if ShouldCompact(cfg, e) {
      forall k | 0 <= k < |survivors| && survivors[k].Push?
        ensures p(survivors[k].id, survivors[k].visibleAt, survivors[k].payload)
      {
        assert survivors[k] in survivors && SurvivesIn(e, survivors[k]);
      }
    }
  }

  lemma HoldingExpire(sh: Shard, now: nat, p: Content)
    requires OnePlace(sh, {}) && ShardHolds(sh, p)
    ensures ShardHolds(Expire(sh, now).shard, p)
    ensures forall k :: 0 <= k < |Expire(sh, now).limbo| ==>
              var x := Expire(sh, now).limbo[k]; x.id in sh.messages && x.msg == sh.messages[x.id]
  {
    hide OnePlace, Expire;
    ExpireShard(sh, now);
  }

  lemma HoldingRoute(cfg: Config, e: Engine, x: Limbo, now: nat, p: Content)
    requires Holding(e, p) && p(x.id, now, x.msg.payload)
    ensures Holding(Route(cfg, e, x, now), p)
  {
  }

  lemma {:induction false} HoldingRouteAll(cfg: Config, e: Engine, limbo: seq<Limbo>, now: nat, p: Content)
    requires Holding(e, p) && LimboHolds(limbo, now, p)
    ensures Holding(RouteAll(cfg, e, limbo, now), p)
  {
    hide Holding, Route;
    if limbo != [] {
      var front := limbo[..|limbo| - 1];
      HoldingRouteAll(cfg, e, front, now, p);
      HoldingRoute(cfg, RouteAll(cfg, e, front, now), limbo[|limbo| - 1], now, p);
    }
  }

  /** Returning leases: it is enough that the returned messages have the property at the new time. */
  lemma HoldingReturned(cfg: Config, home: Homes, e: Engine, queue: string, now: nat, p: Content)
    requires Inv(cfg, home, e, []) && Holding(e, p) && LimboHolds(Expire(ShardFor(cfg, e, queue), now).limbo, now, p)
    ensures Holding(Returned(cfg, e, queue, now), p)
  {
    hide Balanced, OnePlace, HotCount, BookOf, Expire, RouteAll, ShardHolds, RecordsHold;
    var i := ShardIdx(cfg, queue);
    var t := Expire(e.shards[i], now);
    HoldingExpire(e.shards[i], now, p);
    HoldingWith(e, i, t.shard, p);
    HoldingRouteAll(cfg, WithShard(e, i, t.shard), t.limbo, now, p);
  }

  lemma HoldingPage(cfg: Config, e: Engine, r: WalRecord, now: nat, p: Content)
    requires Holding(e, p) && (r.Push? ==> p(r.id, r.visibleAt, r.payload))
    ensures Holding(PageRecord(cfg, e, r, now), p)
  {
  }

  lemma {:induction false} HoldingPages(cfg: Config, e: Engine, records: seq<WalRecord>, now: nat, p: Content)
    requires Holding(e, p) && RecordsHold(records, p)
    ensures Holding(PageRecords(cfg, e, records, now), p)
  {
    hide Holding, PageRecord;
    if records != [] {
      var front := records[..|records| - 1];
      HoldingPages(cfg, e, front, now, p);
      HoldingPage(cfg, PageRecords(cfg, e, front, now), records[|records| - 1], now, p);
    }
  }

  lemma HoldingPageStep(cfg: Config, e: Engine, target: string, now: nat, limit: nat, flushed: bool, p: Content)
    requires Holding(e, p)
    ensures Holding(PageStep(cfg, e, target, now, limit, flushed).engine, p)
  {
    hide PageRecord, Grouped;
    var n := ChunkLen(e, limit);
    var g := Grouped(cfg, e.disk[e.spill..e.spill + n], NUM_SHARDS);
    GroupedHolds(cfg, e.disk, e.spill, e.spill + n, g, p);
    HoldingPages(cfg, e.(spill := e.spill + n), g, now, p);
  }

  lemma GroupedHolds(cfg: Config, disk: seq<WalRecord>, from: nat, to: nat, g: seq<WalRecord>, p: Content)
    requires from <= to <= |disk| && g == Grouped(cfg, disk[from..to], NUM_SHARDS) && RecordsHold(disk, p)
    ensures RecordsHold(g, p)
  {
    hide Grouped;
    GroupedFromDisk(cfg, disk, from, to, g);
    forall k | 0 <= k < |g| && g[k].Push?
      ensures p(g[k].id, g[k].visibleAt, g[k].payload)
    {
      var j :| 0 <= j < |disk| && disk[j] == g[k];
    }
  }

  lemma {:induction false} HoldingPageIn(cfg: Config, e: Engine, target: string, now: nat, limit: nat,
                                         flushed: bool, p: Content)
    requires Holding(e, p)
    ensures Holding(PageIn(cfg, e, target, now, limit, flushed), p)
    decreases |e.disk| - e.spill, if flushed then 0 else 1
  {
    hide Holding;
    HoldingPageStep(cfg, e, target, now, limit, flushed, p);
    match PageStep(cfg, e, target, now, limit, flushed)
    case Stop(_) =>
    case Continue(e', flushed') => HoldingPageIn(cfg, e', target, now, limit, flushed', p);
  }

  lemma HoldingClaim(cfg: Config, home: Homes, e: Engine, l: Lease, max: nat, secs: seq<nat>,
                     receipts: nat -> Receipt, p: Content)
    requires Inv(cfg, home, e, []) && Holding(e, p)
    requires var qs := ShardFor(cfg, e, l.queue).queues; l.queue in qs ==> Q.IsDrainOrder(qs[l.queue], l.now, secs)
    ensures var i := ShardIdx(cfg, l.queue);
            Holding(WithShard(e, i, ClaimFrom(e.shards[i], l, max, secs, receipts).shard), p)
  {
    hide Balanced, OnePlace, HotCount, BookOf, ClaimFrom, AddsLeases, Reports, Receipts;
    var i := ShardIdx(cfg, l.queue);
    var ids := ClaimShape(e.shards[i], l, max, secs, receipts);
    HoldingWith(e, i, ClaimFrom(e.shards[i], l, max, secs, receipts).shard, p);
  }

  // ---------------------------------------------------------------- whole calls

  /** What the call pushes has the property. */
  ghost predicate Brings(c: Call, p: Content) {
    match c.op
    case PushOp(_, item) => p(item.id, c.now + item.delay, item.payload)
    case PushBatchOp(_, items, _) =>
      forall k :: 0 <= k < |items| ==> p(items[k].id, c.now + items[k].delay, items[k].payload)
    case _ => true
  }

  /** The messages a poll takes off their leases have the property at the time of the poll. */
  ghost predicate Renews(cfg: Config, e: Engine, c: Call, p: Content) {
    c.op.PollOp? ==> LimboHolds(Expire(ShardFor(cfg, e, c.op.queue), c.now).limbo, c.now, p)
  }

  lemma StepHolding(cfg: Config, home: Homes, e: Engine, c: Call, p: Content)
    requires Inv(cfg, home, e, []) && Allowed(cfg, home, e, c) && Holding(e, p) && Brings(c, p) && Renews(cfg, e, c, p)
    ensures Holding(Step(cfg, e, c).engine, p)
  {
    hide Inv, Holding, Admit, BatchItems, Settle, AckItems, CanAck, Lists, MaybeCompact, Poll, LimboHolds;
    match c.op
    case PushOp(q, item) =>
      HoldingLog(e, PushRecord(q, item, c.now), p);
      HoldingAdmit(cfg, e, q, item, c.now, p);
    case PushBatchOp(q, items, survivors) =>
      HoldingBatch(cfg, e, q, items, c.now, p);
      HoldingCompact(cfg, BatchItems(cfg, e, q, items, c.now).engine, survivors, p);
    case PollOp(_, _, _, _, _) => PollHolding(cfg, home, e, c, p);
    case AckOp(q, a) => HoldingSettle(cfg, e, q, a, p);
    case AckBatchOp(q, acks, survivors) =>
      HoldingAcks(cfg, e, q, acks, p);
      HoldingCompact(cfg, AckItems(cfg, e, q, acks).engine, survivors, p);
  }

  lemma PollHolding(cfg: Config, home: Homes, e: Engine, c: Call, p: Content)
    requires Inv(cfg, home, e, []) && c.op.PollOp? && Allowed(cfg, home, e, c) && Holding(e, p) && Renews(cfg, e, c, p)
    ensures Holding(Step(cfg, e, c).engine, p)
  {
    hide Inv, Holding, Returned, PageIn, ClaimFrom, NeedsPageIn, LimboHolds;
    var q, now, max := c.op.queue, c.now, c.op.max;
    HoldingReturned(cfg, home, e, q, now, p);
    ReturnedInv(cfg, home, e, q, now);
    var e1 := Returned(cfg, e, q, now);
    if NeedsPageIn(cfg, e1, q, max) {
      HoldingPageIn(cfg, e1, q, now, Max(Prefetch(max), 1000), false, p);
      PageInInv(cfg, home, e1, q, now, Max(Prefetch(max), 1000), false);
    }
    var e2, l := ReadyToClaim(cfg, e, q, now, max), Lease(q, now, now + Timeout(cfg, c.op.visibility));
    HoldingClaim(cfg, home, e2, l, max, c.op.secs, c.op.receipts, p);
  }

  // ---------------------------------------------------------------- payloads

  function PayloadIs(body: Id -> Bytes): Content {
    (id: Id, v: nat, b: Bytes) => b == body(id)
  }

  lemma RenewsPayload(cfg: Config, home: Homes, e: Engine, c: Call, body: Id -> Bytes)
    requires Inv(cfg, home, e, []) && Holding(e, PayloadIs(body))
    ensures Renews(cfg, e, c, PayloadIs(body))
  {
    hide Balanced, OnePlace, HotCount, BookOf, Expire;
    if c.op.PollOp? {
      HoldingExpire(ShardFor(cfg, e, c.op.queue), c.now, PayloadIs(body));
    }
  }

  /** Payloads are kept: if every push of an id carries the same payload, then after every run all
      messages in RAM and all Push records carry the payload of their id, through spilling, page-in,
      dead-lettering and compaction. */
  lemma {:induction false} PayloadsKept(cfg: Config, home: Homes, calls: seq<Call>, body: Id -> Bytes)
    requires AllowedRun(cfg, home, calls) && forall k :: 0 <= k < |calls| ==> Brings(calls[k], PayloadIs(body))
    ensures Inv(cfg, home, Run(cfg, calls).engine, []) && Holding(Run(cfg, calls).engine, PayloadIs(body))
  {
    hide Inv, Holding, Step, Allowed, Brings, Renews;
    var s := RunLife(cfg, home, calls, 0);
    if |calls| == 0 {
      HoldingNew(PayloadIs(body));
    } else {
      var front, c := calls[..|calls| - 1], calls[|calls| - 1];
      PayloadsKept(cfg, home, front, body);
      RenewsPayload(cfg, home, Run(cfg, front).engine, c, body);
      StepHolding(cfg, home, Run(cfg, front).engine, c, PayloadIs(body));
    }
  }
}
