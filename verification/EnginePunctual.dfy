/** No message is handed out before its time, and none that is due stays hidden behind a poll. */
module EnginePunctual {
  import opened Basics
  import opened WalCodec
  import opened EngineSpec
  import opened ShardInv
  import opened Books
  import opened EngineSteps
  import opened EngineRuns
  import opened EngineContents
  import opened EngineTheorems
  import opened EngineFifo
  import Lifecycle
  import Q = Queues
  import W = Wheels

  // ---------------------------------------------------------------- entries stand where their time says

  /** Ready entries are due by `clock` and delayed ones wait in the bucket of their second. */
  ghost predicate FiledByTime(q: Q.Queue, messages: map<Id, Msg>, clock: nat) {
    && q.lastDrained <= clock
    && (forall id :: id in q.ready ==> id in messages && messages[id].visibleAt <= clock)
    && (forall sec, id :: Q.InBucket(q, sec, id) ==> id in messages && messages[id].visibleAt == sec)
  }

  ghost predicate Punctual(sh: Shard, clock: nat) {
    && (forall name :: name in sh.queues ==> FiledByTime(sh.queues[name], sh.messages, clock))
    && (forall id :: id in sh.wheel.index ==> id in sh.messages && sh.messages[id].visibleAt <= clock)
  }

  ghost predicate AllPunctual(e: Engine, clock: nat) {
    forall i :: 0 <= i < NUM_SHARDS ==> Punctual(e.shards[i], clock)
  }

  lemma PunctualLater(e: Engine, clock: nat, clock': nat)
    requires AllPunctual(e, clock) && clock <= clock'
    ensures AllPunctual(e, clock')
  {
    forall i | 0 <= i < NUM_SHARDS
      ensures Punctual(e.shards[i], clock')
    {
      assert Punctual(e.shards[i], clock);
    }
  }

  lemma PunctualWith(e: Engine, i: nat, sh: Shard, clock: nat)
    requires AllPunctual(e, clock) && i < NUM_SHARDS && Punctual(sh, clock)
    ensures AllPunctual(WithShard(e, i, sh), clock)
  {
    hide Punctual;
  }

  lemma PunctualSame(e: Engine, e': Engine, clock: nat)
    requires AllPunctual(e, clock) && e'.shards == e.shards
    ensures AllPunctual(e', clock)
  {
    hide Punctual;
  }

  /** Marks do not matter. */
  lemma SamePunctual(was: Shard, sh: Shard, clock: nat)
    requires Punctual(was, clock) && sh.queues == was.queues && sh.messages == was.messages && sh.wheel == was.wheel
    ensures Punctual(sh, clock)
  {
  }

  lemma EnqueuePunctual(sh: Shard, id: Id, msg: Msg, now: nat)
    requires Punctual(sh, now) && id !in sh.messages && msg.visibleAt <= now + Q.HORIZON
    ensures Punctual(Enqueue(sh, id, msg, now), now)
  {
    var sh' := Enqueue(sh, id, msg, now);
    forall name | name in sh'.queues
      ensures FiledByTime(sh'.queues[name], sh'.messages, now)
    {
      if name == msg.queue {
        InsertFiled(QueueOr(sh, name, now), sh.messages, id, msg, now);
      } else {
        assert FiledByTime(sh.queues[name], sh.messages, now);
      }
    }
  }

  lemma InsertFiled(q: Q.Queue, messages: map<Id, Msg>, id: Id, msg: Msg, now: nat)
    requires FiledByTime(q, messages, now) && id !in messages && msg.visibleAt <= now + Q.HORIZON
    ensures FiledByTime(Q.Insert(q, id, msg.visibleAt, now), messages[id := msg], now)
  {
    var q' := Q.Insert(q, id, msg.visibleAt, now);
    forall sec, x | Q.InBucket(q', sec, x)
      ensures x in messages[id := msg] && messages[id := msg][x].visibleAt == sec
    {
      assert Q.InBucket(q, sec, x) || (sec == msg.visibleAt && x == id);
    }
  }

  lemma TombstonePunctual(sh: Shard, name: string, id: Id, clock: nat)
    requires Punctual(sh, clock) && id !in sh.messages
    ensures Punctual(Tombstone(sh, name, id), clock)
  {
    var sh' := Tombstone(sh, name, id);
    forall n | n in sh'.queues
      ensures FiledByTime(sh'.queues[n], sh'.messages, clock)
    {
      assert FiledByTime(sh.queues[n], sh.messages, clock);
      assert forall sec, x :: Q.InBucket(sh'.queues[n], sec, x) <==> Q.InBucket(sh.queues[n], sec, x);
    }
  }

  /** Dropping leased messages together with their leases. */
  lemma DropPunctual(sh: Shard, w: W.Wheel, gone: set<Id>, clock: nat)
    requires Punctual(sh, clock) && OnePlace(sh, {}) && gone <= sh.wheel.index.Keys
    requires w.index.Keys == sh.wheel.index.Keys - gone
    ensures Punctual(sh.(wheel := w, messages := sh.messages - gone), clock)
  {
    hide W.Consistent, Q.Tidy;
    var sh' := sh.(wheel := w, messages := sh.messages - gone);
    forall n | n in sh'.queues
      ensures FiledByTime(sh'.queues[n], sh'.messages, clock)
    {
      assert FiledByTime(sh.queues[n], sh.messages, clock) && Exact(sh, {}, n);
      forall id | id in sh.queues[n].ready || Q.InBuckets(sh.queues[n], id)
        ensures id !in gone
      {
        assert Q.Holds(sh.queues[n], id);
        assert Waiting(sh, {}, n, id);
      }
      forall sec, id | Q.InBucket(sh'.queues[n], sec, id)
        ensures id in sh'.messages && sh'.messages[id].visibleAt == sec
      {
        assert Q.InBuckets(sh.queues[n], id);
      }
    }
  }

  lemma ExpirePunctual(sh: Shard, now: nat)
    requires Punctual(sh, now) && OnePlace(sh, {})
    ensures Punctual(Expire(sh, now).shard, now)
    ensures forall k :: 0 <= k < |Expire(sh, now).limbo| ==> Expire(sh, now).limbo[k].msg.visibleAt <= now
  {
    hide Expire, W.Collect, Exact, W.LeasesOf, W.Represents;
    var c := W.Collect(sh.wheel, now);
    ExpireShard(sh, now);
    W.ConsistentCollect(sh.wheel, now);
    assert forall id :: id in W.IdsOf(c.expired) ==> id in sh.wheel.index;
    DropPunctual(sh, c.wheel, W.IdsOf(c.expired), now);
  }

  // ---------------------------------------------------------------- steps

  lemma AdmitPunctual(cfg: Config, e: Engine, queue: string, item: Item, now: nat)
    requires AllPunctual(e, now)
    ensures AllPunctual(Admit(cfg, Log(e, PushRecord(queue, item, now)), queue, item, now).engine, now)
  {
    hide Punctual, Enqueue;
    var i, o := ShardIdx(cfg, queue), Admit(cfg, Log(e, PushRecord(queue, item, now)), queue, item, now);
    var sh := Noted(e.shards[i], item.id);
    AdmitShape(cfg, e, queue, item, now);
    SamePunctual(e.shards[i], sh, now);
    if HasRoom(cfg, e, queue, item.id, item.delay) {
      EnqueuePunctual(sh, item.id, MsgOf(queue, item, now), now);
      PunctualWith(e, i, Enqueue(sh, item.id, MsgOf(queue, item, now), now), now);
      PunctualSame(WithShard(e, i, Enqueue(sh, item.id, MsgOf(queue, item, now), now)), o.engine, now);
    } else {
      PunctualWith(e, i, sh, now);
      PunctualSame(WithShard(e, i, sh), o.engine, now);
    }
  }

  lemma {:induction false} BatchPunctual(cfg: Config, e: Engine, queue: string, items: seq<Item>, now: nat)
    requires AllPunctual(e, now)
    ensures AllPunctual(BatchItems(cfg, e, queue, items, now).engine, now)
  {
    hide AllPunctual, Admit;
    if items != [] {
      var front := items[..|items| - 1];
      BatchPunctual(cfg, e, queue, front, now);
      AdmitPunctual(cfg, BatchItems(cfg, e, queue, front, now).engine, queue, items[|items| - 1], now);
    }
  }

  lemma SettlePunctual(cfg: Config, home: Homes, e: Engine, queue: string, a: Receipted, clock: nat)
    requires Inv(cfg, home, e, []) && AllPunctual(e, clock) && CanAck(cfg, e, queue, a)
    ensures AllPunctual(Settle(cfg, e, queue, a).engine, clock)
  {
    hide Balanced, HotCount, BookOf, Punctual, Exact, W.LeasesOf, W.Represents, W.RemoveIfValid;
    var i := ShardIdx(cfg, queue);
    var sh := e.shards[i];
    var w := W.RemoveIfValid(sh.wheel, a.id, a.receipt);
    assert OnePlace(sh, {});
    SettleShard(sh, queue, a);
    SettleShape(cfg, e, queue, a);
    W.ConsistentRemove(sh.wheel, a.id, a.receipt);
    DropPunctual(sh, w, {a.id}, clock);
    var sh1 := sh.(wheel := w, messages := sh.messages - {a.id});
    SamePunctual(sh1, MarkAcked(sh1, a.id), clock);
    TombstonePunctual(MarkAcked(sh1, a.id), queue, a.id, clock);
    PunctualWith(e, i, SettledShard(sh, queue, a), clock);
    PunctualSame(WithShard(e, i, SettledShard(sh, queue, a)), Settle(cfg, e, queue, a).engine, clock);
  }

  lemma {:induction false} AcksPunctual(cfg: Config, home: Homes, e: Engine, queue: string, acks: seq<Receipted>,
                                        clock: nat)
    requires Inv(cfg, home, e, []) && AllPunctual(e, clock)
    ensures var e' := AckItems(cfg, e, queue, acks).engine;
            Inv(cfg, home, e', []) && AllPunctual(e', clock)
  {
    hide Inv, AllPunctual, Settle, CanAck;
    if acks != [] {
      var front, a := acks[..|acks| - 1], acks[|acks| - 1];
      AcksPunctual(cfg, home, e, queue, front, clock);
      var e1 := AckItems(cfg, e, queue, front).engine;
      if CanAck(cfg, e1, queue, a) {
        SettleInv(cfg, home, e1, queue, a);
        SettlePunctual(cfg, home, e1, queue, a, clock);
      }
    }
  }

  lemma RoutePunctual(cfg: Config, home: Homes, e: Engine, limbo: seq<Limbo>, now: nat)
    requires Inv(cfg, home, e, limbo) && limbo != [] && AllPunctual(e, now)
    ensures AllPunctual(Route(cfg, e, limbo[0], now), now)
  {
    hide Balanced, OnePlace, HotCount, BookOf, Punctual, Enqueue, Tombstone;
    var x := limbo[0];
    if cfg.maxDelivery <= x.msg.delivery {
      var from := ShardIdx(cfg, x.msg.queue);
      var sh1 := MarkAcked(e.shards[from], x.id);
      SamePunctual(e.shards[from], sh1, now);
      TombstonePunctual(sh1, x.msg.queue, x.id, now);
      var e1 := WithShard(e, from, Tombstone(sh1, x.msg.queue, x.id));
      PunctualWith(e, from, Tombstone(sh1, x.msg.queue, x.id), now);
      TombstoneMessages(sh1, x.msg.queue, x.id);
      var msg := x.msg.(queue := DeadLetter(x.msg.queue), visibleAt := now);
      var to := ShardIdx(cfg, msg.queue);
      SamePunctual(e1.shards[to], Noted(e1.shards[to], x.id), now);
      EnqueuePunctual(Noted(e1.shards[to], x.id), x.id, msg, now);
      PunctualWith(e1, to, Enqueue(Noted(e1.shards[to], x.id), x.id, msg, now), now);
    } else {
      var to, msg := ShardIdx(cfg, x.msg.queue), x.msg.(visibleAt := now);
      EnqueuePunctual(e.shards[to], x.id, msg, now);
      PunctualWith(e, to, Enqueue(e.shards[to], x.id, msg, now), now);
    }
  }

  lemma TombstoneMessages(sh: Shard, name: string, id: Id)
    ensures Tombstone(sh, name, id).messages == sh.messages
  {
  }

  lemma {:induction false} RouteAllPunctual(cfg: Config, home: Homes, e: Engine, limbo: seq<Limbo>, n: nat, now: nat)
    requires Inv(cfg, home, e, limbo) && n <= |limbo| && AllPunctual(e, now)
    ensures AllPunctual(RouteAll(cfg, e, limbo[..n], now), now)
  {
    hide Inv, Route, AllPunctual;
    if n > 0 {
      RouteAllPunctual(cfg, home, e, limbo, n - 1, now);
      RouteAllInv(cfg, home, e, limbo, n - 1, now);
      PrefixStep(limbo, n - 1);
      SuffixStep(limbo, n - 1);
      RoutePunctual(cfg, home, RouteAll(cfg, e, limbo[..n - 1], now), limbo[n - 1..], now);
    }
  }

  lemma ReturnedPunctual(cfg: Config, home: Homes, e: Engine, queue: string, now: nat)
    requires Inv(cfg, home, e, []) && AllPunctual(e, now)
    ensures AllPunctual(Returned(cfg, e, queue, now), now)
  {
    hide Balanced, OnePlace, HotCount, BookOf, Expire, RouteAll, Punctual, InOwnShard, Apart;
    var i := ShardIdx(cfg, queue);
    var t := Expire(e.shards[i], now);
    ExpirePunctual(e.shards[i], now);
    ExpireInv(cfg, home, e, i, now);
    PunctualWith(e, i, t.shard, now);
    RouteAllPunctual(cfg, home, WithShard(e, i, t.shard), t.limbo, |t.limbo|, now);
    assert t.limbo[..|t.limbo|] == t.limbo;
  }

  lemma PageRecordPunctual(cfg: Config, home: Homes, e: Engine, r: WalRecord, now: nat)
    requires Inv(cfg, home, e, []) && r in e.disk && AllPunctual(e, now)
    ensures AllPunctual(PageRecord(cfg, e, r, now), now)
  {
    hide Inv, Punctual, Enqueue, Tombstone;
    var i := ShardIdx(cfg, r.queue);
    var sh := e.shards[i];
    if r.Ack? {
      LoggedAck(cfg, home, e, r);
      assert sh.messages - {r.id} == sh.messages;
      SamePunctual(sh, MarkAcked(sh, r.id), now);
      TombstonePunctual(MarkAcked(sh, r.id), r.queue, r.id, now);
      PunctualWith(e, i, Tombstone(MarkAcked(sh, r.id), r.queue, r.id), now);
      PunctualSame(WithShard(e, i, Tombstone(MarkAcked(sh, r.id), r.queue, r.id)), PageRecord(cfg, e, r, now), now);
    } else if PagedIn(cfg, e, r, now) {
      var msg := Msg(r.queue, r.payload, r.visibleAt, 0);
      SamePunctual(sh, Noted(sh, r.id), now);
      EnqueuePunctual(Noted(sh, r.id), r.id, msg, now);
      PunctualWith(e, i, Enqueue(Noted(sh, r.id), r.id, msg, now), now);
      PunctualSame(WithShard(e, i, Enqueue(Noted(sh, r.id), r.id, msg, now)), PageRecord(cfg, e, r, now), now);
    }
  }

  lemma {:induction false} PageRecordsPunctual(cfg: Config, home: Homes, e: Engine, records: seq<WalRecord>, now: nat)
    requires Inv(cfg, home, e, []) && AllPunctual(e, now) && forall k :: 0 <= k < |records| ==> records[k] in e.disk
    ensures AllPunctual(PageRecords(cfg, e, records, now), now)
  {
    hide Inv, PageRecord, AllPunctual;
    if records != [] {
      var front := records[..|records| - 1];
      PageRecordsPunctual(cfg, home, e, front, now);
      PageRecordsInv(cfg, home, e, front, now);
      PageRecordPunctual(cfg, home, PageRecords(cfg, e, front, now), records[|records| - 1], now);
    }
  }

  lemma PageStepPunctual(cfg: Config, home: Homes, e: Engine, target: string, now: nat, limit: nat, flushed: bool)
    requires Inv(cfg, home, e, []) && AllPunctual(e, now)
    ensures AllPunctual(PageStep(cfg, e, target, now, limit, flushed).engine, now)
  {
    hide Inv, Grouped, PageRecords, AllPunctual;
    var n := ChunkLen(e, limit);
    var e1, g := e.(spill := e.spill + n), Grouped(cfg, e.disk[e.spill..e.spill + n], NUM_SHARDS);
    SpillInv(cfg, home, e, e.spill + n);
    PunctualSame(e, e1, now);
    PunctualSame(e, e.(spill := 0), now);
    GroupedFromDisk(cfg, e.disk, e.spill, e.spill + n, g);
    PageRecordsPunctual(cfg, home, e1, g, now);
  }

  lemma {:induction false} PageInPunctual(cfg: Config, home: Homes, e: Engine, target: string, now: nat,
                                          limit: nat, flushed: bool)
    requires Inv(cfg, home, e, []) && AllPunctual(e, now)
    ensures AllPunctual(PageIn(cfg, e, target, now, limit, flushed), now)
    decreases |e.disk| - e.spill, if flushed then 0 else 1
  {
    hide Inv, AllPunctual;
    PageStepPunctual(cfg, home, e, target, now, limit, flushed);
    PageStepInv(cfg, home, e, target, now, limit, flushed);
    match PageStep(cfg, e, target, now, limit, flushed)
    case Stop(_) =>
    case Continue(e', flushed') => PageInPunctual(cfg, home, e', target, now, limit, flushed');
  }

  // ---------------------------------------------------------------- claiming

  /** After a drain at `now` everything due is ready, and only that. */
  lemma DrainFiled(q: Q.Queue, messages: map<Id, Msg>, now: nat, secs: seq<nat>)
    requires Q.Tidy(q) && FiledByTime(q, messages, now) && Q.IsDrainOrder(q, now, secs)
    ensures var q' := Q.Drain(q, now, secs);
            FiledByTime(q', messages, now) && forall sec, id :: Q.InBucket(q', sec, id) ==> now < sec
  {
    hide Q.Drain, Q.IsDrainOrder, Q.Promote;
    Q.DrainEffect(q, now, secs);
    NothingPromoted(q, now);
    var q' := Q.Drain(q, now, secs);
    forall id | id in q'.ready
      ensures id in messages && messages[id].visibleAt <= now
    {
      if id !in q.ready {
        var sec: nat :| Q.InBucket(Q.Promoted(q, now), sec, id) && sec <= now;
      }
    }
  }

  lemma NothingPromoted(q: Q.Queue, now: nat)
    requires Q.Tidy(q)
    ensures Q.Promoted(q, now) == q
  {
  }

  lemma {:induction false} ClaimKeepsBuckets(q: Q.Queue, max: nat)
    ensures Claim(q, max).queue.buckets == q.buckets && Claim(q, max).queue.lastDrained == q.lastDrained
    decreases max
  {
    hide Q.PopReady;
    if 0 < max {
      Q.PopEffect(q);
      if Q.PopReady(q).id.Some? {
        ClaimKeepsBuckets(Q.PopReady(q).queue, max - 1);
      }
    }
  }

  lemma ClaimFiled(q: Q.Queue, messages: map<Id, Msg>, now: nat, max: nat)
    requires Q.Tidy(q) && FiledByTime(q, messages, now)
    ensures FiledByTime(Claim(q, max).queue, messages, now)
    ensures forall id :: id in Claim(q, max).ids ==> id in q.ready
  {
    hide Q.Tidy, Claim;
    ClaimFront(q, max);
    ClaimKeepsBuckets(q, max);
    assert forall sec, id :: Q.InBucket(Claim(q, max).queue, sec, id) <==> Q.InBucket(q, sec, id);
  }

  lemma CountedFiled(q: Q.Queue, was: map<Id, Msg>, now: map<Id, Msg>, ids: seq<Id>, clock: nat)
    requires FiledByTime(q, was, clock) && CountsUp(was, now, ids)
    ensures FiledByTime(q, now, clock)
  {
  }

  /** What a claim does to the times in its shard. */
  lemma ClaimPunctual(sh: Shard, l: Lease, max: nat, secs: seq<nat>, receipts: nat -> Receipt)
    requires OnePlace(sh, {}) && Punctual(sh, l.now)
    requires l.queue in sh.queues ==> Q.IsDrainOrder(sh.queues[l.queue], l.now, secs)
    ensures var r := ClaimFrom(sh, l, max, secs, receipts);
            && Punctual(r.shard, l.now)
            && (l.queue in r.shard.queues ==>
                  forall sec, id :: Q.InBucket(r.shard.queues[l.queue], sec, id) ==> l.now < sec)
            && (forall k :: 0 <= k < |r.events| ==>
                  r.events[k].Delivered? && r.events[k].now == l.now
                  && r.events[k].id in sh.messages && sh.messages[r.events[k].id].visibleAt <= l.now)
  {
    hide OnePlace, Q.Drain, Q.IsDrainOrder, Claim, AddsLeases, Receipts, CountsUp, FiledByTime, LeaseAll, Q.Tidy;
    if l.queue in sh.queues {
      var q := Q.Drain(sh.queues[l.queue], l.now, secs);
      var c := Claim(q, max);
      var ids := ClaimShape(sh, l, max, secs, receipts);
      var r := ClaimFrom(sh, l, max, secs, receipts);
      ClaimOut(sh, l, max, secs, receipts);
      SameIds(sh.(queues := r.shard.queues), r.shard, ids, c.ids, l, r.events);
      QueueTidy(sh, l.queue);
      DrainFiled(sh.queues[l.queue], sh.messages, l.now, secs);
      Q.TidyDrain(sh.queues[l.queue], l.now, secs);
      ClaimFiled(q, sh.messages, l.now, max);
      ClaimKeepsBuckets(q, max);
      assert forall sec, id :: Q.InBucket(c.queue, sec, id) <==> Q.InBucket(q, sec, id);
      ClaimedTimes(q, sh.messages, c.ids, l.now);
      ClaimedShard(sh, r.shard, c, l, r.events);
    }
  }

  lemma ClaimedTimes(q: Q.Queue, messages: map<Id, Msg>, ids: seq<Id>, now: nat)
    requires FiledByTime(q, messages, now) && forall id :: id in ids ==> id in q.ready
    ensures forall k :: 0 <= k < |ids| ==> ids[k] in messages && messages[ids[k]].visibleAt <= now
  {
    forall k | 0 <= k < |ids|
      ensures ids[k] in messages && messages[ids[k]].visibleAt <= now
    {
      assert ids[k] in ids;
    }
  }

  lemma SameIds(was: Shard, sh: Shard, ids: seq<Id>, claimed: seq<Id>, l: Lease, events: seq<Event>)
    requires Leases(was, sh, ids, l, events) && |events| == |claimed|
    requires forall k :: 0 <= k < |claimed| ==> events[k].Delivered? && events[k].id == claimed[k]
    ensures ids == claimed && Leases(was, sh, claimed, l, events)
    ensures forall k :: 0 <= k < |events| ==> events[k].now == l.now
  {
    assert forall k :: 0 <= k < |ids| ==> ids[k] == claimed[k];
  }

  lemma ClaimedShard(sh: Shard, sh': Shard, c: Claimed, l: Lease, events: seq<Event>)
    requires l.queue in sh.queues && sh'.queues == sh.queues[l.queue := c.queue]
    requires Punctual(sh, l.now) && FiledByTime(c.queue, sh.messages, l.now)
    requires Leases(sh.(queues := sh'.queues), sh', c.ids, l, events)
    requires forall k :: 0 <= k < |c.ids| ==> c.ids[k] in sh.messages && sh.messages[c.ids[k]].visibleAt <= l.now
    ensures Punctual(sh', l.now)
  {
    hide W.LeasesOf, FiledByTime, Reports, Receipts;
    forall name | name in sh'.queues
      ensures FiledByTime(sh'.queues[name], sh'.messages, l.now)
    {
      CountedFiled(sh'.queues[name], sh.messages, sh'.messages, c.ids, l.now);
    }
    forall id | id in sh'.wheel.index
      ensures id in sh'.messages && sh'.messages[id].visibleAt <= l.now
    {
      if id in c.ids {
        var k :| 0 <= k < |c.ids| && c.ids[k] == id;
      }
    }
  }

  // ---------------------------------------------------------------- whole calls

  /** Visible no earlier than the id allows. */
  function NotBefore(early: Id -> nat): Content {
    (id: Id, v: nat, b: Bytes) => early(id) <= v
  }

  lemma RenewsLater(cfg: Config, home: Homes, e: Engine, c: Call, early: Id -> nat)
    requires Inv(cfg, home, e, []) && AllPunctual(e, c.now) && Holding(e, NotBefore(early))
    ensures Renews(cfg, e, c, NotBefore(early))
  {
    hide Balanced, OnePlace, HotCount, BookOf, Expire, Punctual;
    if c.op.PollOp? {
      HoldingExpire(ShardFor(cfg, e, c.op.queue), c.now, NotBefore(early));
      ExpirePunctual(ShardFor(cfg, e, c.op.queue), c.now);
    }
  }

  ghost predicate InTime(events: seq<Event>, early: Id -> nat) {
    forall k :: 0 <= k < |events| && events[k].Delivered? ==> early(events[k].id) <= events[k].now
  }

  lemma PollPunctual(cfg: Config, home: Homes, e: Engine, c: Call, early: Id -> nat)
    requires Inv(cfg, home, e, []) && c.op.PollOp? && Allowed(cfg, home, e, c)
    requires AllPunctual(e, c.now) && Holding(e, NotBefore(early))
    ensures var o := Step(cfg, e, c);
            && AllPunctual(o.engine, c.now) && InTime(o.events, early)
            && (var qs := ShardFor(cfg, o.engine, c.op.queue).queues;
                c.op.queue in qs ==> forall sec, id :: Q.InBucket(qs[c.op.queue], sec, id) ==> c.now < sec)
  {
    hide Balanced, OnePlace, HotCount, BookOf, InOwnShard, Apart, Returned, PageIn, ClaimFrom, NeedsPageIn,
      Punctual, RecordsHold;
    var q, now, max := c.op.queue, c.now, c.op.max;
    var i := ShardIdx(cfg, q);
    RenewsLater(cfg, home, e, c, early);
    ReadyPunctual(cfg, home, e, c, NotBefore(early));
    var e2, l := ReadyToClaim(cfg, e, q, now, max), Lease(q, now, now + Timeout(cfg, c.op.visibility));
    ClaimPunctual(e2.shards[i], l, max, c.op.secs, c.op.receipts);
    PunctualWith(e2, i, ClaimFrom(e2.shards[i], l, max, c.op.secs, c.op.receipts).shard, now);
    assert ShardHolds(e2.shards[i], NotBefore(early));
  }

  lemma ReadyPunctual(cfg: Config, home: Homes, e: Engine, c: Call, p: Content)
    requires Inv(cfg, home, e, []) && c.op.PollOp? && AllPunctual(e, c.now) && Holding(e, p) && Renews(cfg, e, c, p)
    ensures var e' := ReadyToClaim(cfg, e, c.op.queue, c.now, c.op.max);
            Inv(cfg, home, e', []) && AllPunctual(e', c.now) && Holding(e', p)
  {
    hide Inv, AllPunctual, Holding, Returned, PageIn, NeedsPageIn, LimboHolds, Expire;
    var q, now, max := c.op.queue, c.now, c.op.max;
    ReturnedInv(cfg, home, e, q, now);
    ReturnedPunctual(cfg, home, e, q, now);
    HoldingReturned(cfg, home, e, q, now, p);
    var e1 := Returned(cfg, e, q, now);
    if NeedsPageIn(cfg, e1, q, max) {
      PageInInv(cfg, home, e1, q, now, Max(Prefetch(max), 1000), false);
      PageInPunctual(cfg, home, e1, q, now, Max(Prefetch(max), 1000), false);
      HoldingPageIn(cfg, e1, q, now, Max(Prefetch(max), 1000), false, p);
    }
  }

  lemma StepPunctual(cfg: Config, home: Homes, e: Engine, c: Call, early: Id -> nat)
    requires Inv(cfg, home, e, []) && Allowed(cfg, home, e, c) && AllPunctual(e, c.now)
    requires Holding(e, NotBefore(early)) && Brings(c, NotBefore(early))
    ensures var o := Step(cfg, e, c);
            AllPunctual(o.engine, c.now) && Holding(o.engine, NotBefore(early)) && InTime(o.events, early)
  {
    hide Inv, AllPunctual, Holding, Settle, CanAck, Poll, Lists, ShouldCompact, Admit, BatchItems, AckItems,
      Brings, Renews;
    RenewsLater(cfg, home, e, c, early);
    StepHolding(cfg, home, e, c, NotBefore(early));
    NoneDelivered(cfg, e, c);
    var e' := Step(cfg, e, c).engine;
    match c.op
    case PushOp(q, item) =>
      AdmitPunctual(cfg, e, q, item, c.now);
      PunctualSame(e, Log(e, PushRecord(q, item, c.now)), c.now);
    case PushBatchOp(q, items, survivors) =>
      BatchPunctual(cfg, e, q, items, c.now);
      PunctualSame(BatchItems(cfg, e, q, items, c.now).engine, e', c.now);
    case PollOp(_, _, _, _, _) => PollPunctual(cfg, home, e, c, early);
    case AckOp(q, a) =>
      if CanAck(cfg, e, q, a) {
        SettlePunctual(cfg, home, e, q, a, c.now);
      }
    case AckBatchOp(q, acks, survivors) =>
      AcksPunctual(cfg, home, e, q, acks, c.now);
      PunctualSame(AckItems(cfg, e, q, acks).engine, e', c.now);
  }

  ghost predicate NoHandOut(events: seq<Event>) {
    forall k :: 0 <= k < |events| ==> !events[k].Delivered?
  }

  /** Only polls hand out messages. */
  lemma NoneDelivered(cfg: Config, e: Engine, c: Call)
    ensures !c.op.PollOp? ==> NoHandOut(Step(cfg, e, c).events)
  {
    match c.op
    case PushBatchOp(q, items, _) => BatchNone(cfg, e, q, items, c.now);
    case AckBatchOp(q, acks, _) => AcksNone(cfg, e, q, acks);
    case _ =>
  }

  lemma NoHandOutJoin(a: seq<Event>, b: seq<Event>)
    requires NoHandOut(a) && NoHandOut(b)
    ensures NoHandOut(a + b)
  {
  }

  lemma {:induction false} BatchNone(cfg: Config, e: Engine, queue: string, items: seq<Item>, now: nat)
    ensures NoHandOut(BatchItems(cfg, e, queue, items, now).events)
  {
    if items != [] {
      var front := items[..|items| - 1];
      BatchNone(cfg, e, queue, front, now);
      var a := BatchItems(cfg, e, queue, front, now);
      NoHandOutJoin(a.events, BatchItem(cfg, a.engine, queue, items[|items| - 1], now).events);
    }
  }

  lemma {:induction false} AcksNone(cfg: Config, e: Engine, queue: string, acks: seq<Receipted>)
    ensures NoHandOut(AckItems(cfg, e, queue, acks).events)
  {
    if acks != [] {
      var front := acks[..|acks| - 1];
      AcksNone(cfg, e, queue, front);
      var a := AckItems(cfg, e, queue, front);
      NoHandOutJoin(a.events, AckOne(cfg, a.engine, queue, acks[|acks| - 1]).events);
    }
  }

  // ---------------------------------------------------------------- whole runs

  lemma NewPunctual()
    ensures AllPunctual(NewEngine(), 0)
  {
  }

  lemma {:induction false} RunPunctual(cfg: Config, home: Homes, calls: seq<Call>, early: Id -> nat)
    requires AllowedRun(cfg, home, calls) && MonotoneClock(calls)
    requires forall k :: 0 <= k < |calls| ==> Brings(calls[k], NotBefore(early))
    ensures var e := Run(cfg, calls).engine;
            && Inv(cfg, home, e, []) && AllPunctual(e, LastTime(calls)) && Holding(e, NotBefore(early))
            && InTime(RunEvents(cfg, calls), early)
  {
    hide Inv, AllPunctual, Holding, Step, Allowed, Brings;
    var s := RunLife(cfg, home, calls, 0);
    if |calls| == 0 {
      NewPunctual();
      HoldingNew(NotBefore(early));
    } else {
      var front, c := calls[..|calls| - 1], calls[|calls| - 1];
      var before := Run(cfg, front);
      RunPunctual(cfg, home, front, early);
      PunctualLater(before.engine, LastTime(front), c.now);
      StepPunctual(cfg, home, before.engine, c, early);
      Snoc(before.log, Lifecycle.Entry(c.now, Step(cfg, before.engine, c).events));
    }
  }

  /** With a clock that does not step back, no poll hands out a message before the earliest time any
      push of it was scheduled for. */
  lemma NotHandedOutEarly(cfg: Config, home: Homes, calls: seq<Call>, early: Id -> nat, k: nat)
    requires AllowedRun(cfg, home, calls) && MonotoneClock(calls)
    requires forall j :: 0 <= j < |calls| ==> Brings(calls[j], NotBefore(early))
    requires k < |RunEvents(cfg, calls)| && RunEvents(cfg, calls)[k].Delivered?
    ensures early(RunEvents(cfg, calls)[k].id) <= RunEvents(cfg, calls)[k].now
  {
    hide AllowedRun, Run, Inv, AllPunctual, Holding, Brings;
    RunPunctual(cfg, home, calls, early);
  }

  /** After a poll at `now` the messages still waiting in that queue are ready or due after `now`: what
      the poll did not hand out although it was due is next in line. */
  lemma NothingDueHidden(cfg: Config, home: Homes, calls: seq<Call>, id: Id)
    requires AllowedRun(cfg, home, calls) && MonotoneClock(calls) && 0 < |calls| && calls[|calls| - 1].op.PollOp?
    requires var c := calls[|calls| - 1];
             Waiting(ShardFor(cfg, Run(cfg, calls).engine, c.op.queue), {}, c.op.queue, id)
    ensures var c := calls[|calls| - 1];
            var sh := ShardFor(cfg, Run(cfg, calls).engine, c.op.queue);
            id in ReadyIn(sh, c.op.queue) || c.now < sh.messages[id].visibleAt
  {
    hide Step, Allowed, Inv, AllPunctual, Holding, Brings, OnePlace;
    var front, c := calls[..|calls| - 1], calls[|calls| - 1];
    var e, e', early := Run(cfg, front).engine, Run(cfg, calls).engine, Anytime();
    forall k | 0 <= k < |calls|
      ensures Brings(calls[k], NotBefore(early))
    {
      BringsAnytime(calls[k]);
    }
    RunPunctual(cfg, home, front, early);
    RunPunctual(cfg, home, calls, early);
    PunctualLater(e, LastTime(front), c.now);
    PollPunctual(cfg, home, e, c, early);
    WaitsSomewhere(cfg, home, e', c.op.queue, id, c.now);
  }

  function Anytime(): Id -> nat {
    _ => 0
  }

  lemma BringsAnytime(c: Call)
    ensures Brings(c, NotBefore(Anytime()))
  {
  }

  lemma WaitsSomewhere(cfg: Config, home: Homes, e: Engine, q: string, id: Id, clock: nat)
    requires Inv(cfg, home, e, []) && AllPunctual(e, clock) && Waiting(ShardFor(cfg, e, q), {}, q, id)
    ensures var sh := ShardFor(cfg, e, q);
            && q in sh.queues
            && (|| id in ReadyIn(sh, q)
                || exists sec :: Q.InBucket(sh.queues[q], sec, id) && sh.messages[id].visibleAt == sec)
  {
    hide W.Consistent, Balanced, BookOf, HotCount;
    var sh := ShardFor(cfg, e, q);
    assert OnePlace(sh, {}) && Punctual(sh, clock);
    assert Exact(sh, {}, q);
    assert FiledByTime(sh.queues[q], sh.messages, clock);
  }
}
