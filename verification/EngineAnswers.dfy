/** What callers get: how many messages a poll returns, which ones and on what lease, where a push goes,
    and which acks succeed. */
module EngineAnswers {
  import opened Basics
  import opened EngineSpec
  import opened ShardInv
  import opened Books
  import opened EngineSteps
  import opened Lifecycle
  import opened EngineLife
  import opened EngineRuns
  import opened EngineTheorems
  import opened EngineContents
  import opened EngineFifo
  import opened EnginePrompt
  import opened EnginePunctual
  import Q = Queues
  import W = Wheels

  // ---------------------------------------------------------------- poll: the answer

  /** The hand-outs of one claim: position `k` is on lease under receipt `k`. */
  ghost predicate HandsOutFrom(events: seq<Event>, l: Lease, ids: seq<Id>, receipts: nat -> Receipt) {
    && |events| == |ids|
    && forall k :: 0 <= k < |ids| ==>
         events[k].Delivered? && events[k] == Delivered(l.queue, ids[k], events[k].count, l.now, l.until, receipts(k))
  }

  lemma {:induction false} LeasesInTurn(sh: Shard, ids: seq<Id>, l: Lease, receipts: nat -> Receipt)
    requires forall k :: 0 <= k < |ids| ==> ids[k] in sh.messages
    ensures HandsOutFrom(LeaseAll(sh, ids, l, receipts).events, l, ids, receipts)
    ensures LeaseAll(sh, ids, l, receipts).shard.messages.Keys == sh.messages.Keys
  {
    if ids != [] {
      LeasesInTurn(sh, ids[..|ids| - 1], l, receipts);
    }
  }

  /** A claim takes the front of the drained ready queue. */
  lemma ClaimAnswers(sh: Shard, l: Lease, max: nat, secs: seq<nat>, receipts: nat -> Receipt)
    requires OnePlace(sh, {}) && (l.queue in sh.queues ==> Q.IsDrainOrder(sh.queues[l.queue], l.now, secs))
    ensures var r := ClaimFrom(sh, l, max, secs, receipts);
            var ready := if l.queue in sh.queues then Q.Drain(sh.queues[l.queue], l.now, secs).ready else [];
            && ReadyIn(sh, l.queue) <= ready && NoDup(ready)
            && HandsOutFrom(r.events, l, ready[..Min(max, |ready|)], receipts)
            && ReadyIn(r.shard, l.queue) == ready[Min(max, |ready|)..]
  {
    hide OnePlace, Q.Drain, Claim, Q.Tidy, LeaseAll, Leases, Q.IsDrainOrder;
    if l.queue in sh.queues {
      var q := Q.Drain(sh.queues[l.queue], l.now, secs);
      var c := Claim(q, max);
      QueueTidy(sh, l.queue);
      Q.TidyDrain(sh.queues[l.queue], l.now, secs);
      TidyReady(q);
      ClaimFront(q, max);
      ClaimOut(sh, l, max, secs, receipts);
      var sh2 := sh.(queues := sh.queues[l.queue := c.queue]);
      forall k | 0 <= k < |c.ids|
        ensures c.ids[k] in sh2.messages
      {
        assert c.ids[k] in q.ready;
        DrainedWaits(sh, l.queue, q, c.ids[k]);
      }
      LeasesInTurn(sh2, c.ids, l, receipts);
    }
  }

  lemma DrainedWaits(sh: Shard, queue: string, q: Q.Queue, id: Id)
    requires queue in sh.queues && Q.HoldsAlso(sh.queues[queue], q, {}) && id in q.ready
    requires forall id :: Q.Holds(sh.queues[queue], id) <==> Waiting(sh, {}, queue, id)
    ensures id in sh.messages
  {
    assert Q.Holds(q, id);
  }

  /** What waits in front when a poll starts to claim. */
  lemma ReadyBefore(cfg: Config, home: Homes, e: Engine, c: Call)
    requires Inv(cfg, home, e, []) && c.op.PollOp?
    ensures var e1 := ReadyToClaim(cfg, e, c.op.queue, c.now, c.op.max);
            && Inv(cfg, home, e1, [])
            && forall q :: ReadyOf(cfg, Returned(cfg, e, c.op.queue, c.now), q) <= ReadyOf(cfg, e1, q)
    ensures forall q :: ReadyOf(cfg, e, q) <= ReadyOf(cfg, Returned(cfg, e, c.op.queue, c.now), q)
  {
    hide Inv, ReadyOf, NeedsPageIn, Returned, PageIn;
    var queue, now, max := c.op.queue, c.now, c.op.max;
    var e1 := Returned(cfg, e, queue, now);
    ReturnedInv(cfg, home, e, queue, now);
    forall q ensures ReadyOf(cfg, e, q) <= ReadyOf(cfg, e1, q) { ReturnedReady(cfg, home, e, queue, now, q); }
    if NeedsPageIn(cfg, e1, queue, max) {
      PageInInv(cfg, home, e1, queue, now, Max(Prefetch(max), 1000), false);
      forall q ensures ReadyOf(cfg, e1, q) <= ReadyOf(cfg, ReadyToClaim(cfg, e, queue, now, max), q) {
        PageInReady(cfg, home, e1, queue, now, Max(Prefetch(max), 1000), false, q);
      }
    }
  }

  /** A poll returns at most `max` messages, distinct ones, and fewer only when it leaves no ready message in
      the queue. It returns those that were ready before it first and in their order. Each is on lease
      until now + visibility, or now + the default timeout when the visibility is zero, under its own
      receipt. */
  lemma PollAnswers(cfg: Config, home: Homes, e: Engine, c: Call)
    requires Inv(cfg, home, e, []) && c.op.PollOp? && Allowed(cfg, home, e, c)
    ensures var o, ready := Step(cfg, e, c), ReadyOf(cfg, e, c.op.queue);
            && |o.events| <= c.op.max
            && (|o.events| < c.op.max ==> ReadyOf(cfg, o.engine, c.op.queue) == [])
            && (forall k :: 0 <= k < |o.events| ==>
                  && o.events[k].Delivered? && o.events[k].queue == c.op.queue && o.events[k].now == c.now
                  && o.events[k].until == c.now + (if c.op.visibility == 0 then cfg.defaultTimeout else c.op.visibility)
                  && o.events[k].receipt == c.op.receipts(k))
            && (forall j, k :: 0 <= j < k < |o.events| ==> o.events[j].id != o.events[k].id)
            && Min(c.op.max, |ready|) <= |o.events|
            && (forall k :: 0 <= k < Min(|ready|, |o.events|) ==> o.events[k].id == ready[k])
  {
    hide Balanced, OnePlace, HotCount, BookOf, ClaimFrom, ReadyToClaim, Q.Drain, Q.IsDrainOrder, InOwnShard, Apart;
    var q, now := c.op.queue, c.now;
    var e1, l := ReadyToClaim(cfg, e, q, now, c.op.max), Lease(q, now, now + Timeout(cfg, c.op.visibility));
    ReadyBefore(cfg, home, e, c);
    ClaimAnswers(ShardFor(cfg, e1, q), l, c.op.max, c.op.secs, c.op.receipts);
  }

  /** So when receipts are drawn without repetition, no two hand-outs of a poll share one. */
  lemma ReceiptsDiffer(cfg: Config, home: Homes, e: Engine, c: Call, j: nat, k: nat)
    requires Inv(cfg, home, e, []) && c.op.PollOp? && Allowed(cfg, home, e, c)
    requires forall m: nat, n: nat :: c.op.receipts(m) == c.op.receipts(n) ==> m == n
    requires j < k < |Step(cfg, e, c).events|
    ensures var events := Step(cfg, e, c).events;
            events[j].Delivered? && events[k].Delivered? && events[j].receipt != events[k].receipt
  {
    hide Inv, Step, Allowed;
    PollAnswers(cfg, home, e, c);
  }

  /** A poll pages in if and only if, once ended leases are returned, its queue does not exist or counts
      fewer than max(2 * max, 200) ready messages; it then asks for at least 1000 records per read. */
  lemma PagesInIff(cfg: Config, e: Engine, c: Call)
    requires c.op.PollOp?
    ensures var q, max, e1 := c.op.queue, c.op.max, Returned(cfg, e, c.op.queue, c.now);
            var qs := ShardFor(cfg, e1, q).queues;
            var wanted := if max * 2 <= 200 then 200 else max * 2;
            ReadyToClaim(cfg, e, q, c.now, max)
            == if q in qs && wanted + |qs[q].deleted| <= |qs[q].ready| then e1
               else PageIn(cfg, e1, q, c.now, if wanted <= 1000 then 1000 else wanted, false)
  {
    hide Returned, PageIn;
  }

  // ---------------------------------------------------------------- poll: ended leases

  /** Where a message goes when its lease has ended. */
  function NextName(cfg: Config, msg: Msg): string {
    if cfg.maxDelivery <= msg.delivery then msg.queue + ".dlq" else msg.queue
  }

  lemma RoutePuts(cfg: Config, e: Engine, x: Limbo, now: nat)
    ensures x.id in ReadyOf(cfg, Route(cfg, e, x, now), NextName(cfg, x.msg))
  {
    hide Enqueue, Tombstone;
    if cfg.maxDelivery <= x.msg.delivery {
      var from := ShardIdx(cfg, x.msg.queue);
      var e1 := WithShard(e, from, Tombstone(MarkAcked(e.shards[from], x.id), x.msg.queue, x.id));
      var msg := x.msg.(queue := DeadLetter(x.msg.queue), visibleAt := now);
      EnqueueReady(Noted(ShardFor(cfg, e1, msg.queue), x.id), x.id, msg, now, msg.queue);
    } else {
      var msg := x.msg.(visibleAt := now);
      EnqueueReady(ShardFor(cfg, e, msg.queue), x.id, msg, now, msg.queue);
    }
  }

  lemma {:induction false} RouteAllPuts(cfg: Config, home: Homes, e: Engine, limbo: seq<Limbo>, n: nat, k: nat,
                                        now: nat)
    requires Inv(cfg, home, e, limbo) && k < n <= |limbo|
    ensures limbo[k].id in ReadyOf(cfg, RouteAll(cfg, e, limbo[..n], now), NextName(cfg, limbo[k].msg))
  {
    hide Inv, Route, ReadyOf, NextName;
    RouteAllInv(cfg, home, e, limbo, n - 1, now);
    PrefixStep(limbo, n - 1);
    SuffixStep(limbo, n - 1);
    var e1 := RouteAll(cfg, e, limbo[..n - 1], now);
    if k == n - 1 {
      RoutePuts(cfg, e1, limbo[k], now);
    } else {
      RouteAllPuts(cfg, home, e, limbo, n - 1, k, now);
      RouteReady(cfg, home, e1, limbo[n - 1..], now, NextName(cfg, limbo[k].msg));
    }
  }

  /** The lease of the message is among those the poll collects. */
  ghost predicate Collected(cfg: Config, e: Engine, c: Call, id: Id) {
    c.op.PollOp? && id in W.IdsOf(W.Collect(ShardFor(cfg, e, c.op.queue).wheel, c.now).expired)
  }

  lemma ReturnedPuts(cfg: Config, home: Homes, e: Engine, c: Call, id: Id)
    requires Inv(cfg, home, e, []) && Collected(cfg, e, c, id)
    ensures id in ShardFor(cfg, e, c.op.queue).messages
    ensures var msg := ShardFor(cfg, e, c.op.queue).messages[id];
            id in ReadyOf(cfg, Returned(cfg, e, c.op.queue, c.now), NextName(cfg, msg))
  {
    hide Balanced, OnePlace, HotCount, BookOf, Expire, RouteAll, InOwnShard, Apart, ReadyOf, NextName, W.Collect,
      DistinctIds;
    var i := ShardIdx(cfg, c.op.queue);
    var sh, t := e.shards[i], Expire(e.shards[i], c.now);
    var items := W.Collect(sh.wheel, c.now).expired;
    ExpireShard(sh, c.now);
    ExpireInv(cfg, home, e, i, c.now);
    var it :| it in items && it.id == id;
    var k :| 0 <= k < |items| && items[k] == it;
    RouteAllPuts(cfg, home, WithShard(e, i, t.shard), t.limbo, |t.limbo|, k, c.now);
    assert t.limbo[..|t.limbo|] == t.limbo;
  }

  ghost predicate HandsOut(events: seq<Event>, id: Id) {
    exists k :: 0 <= k < |events| && events[k].Delivered? && events[k].id == id
  }

  /** Ready messages stay ready until they are handed out. */
  lemma ReadyOrOut(cfg: Config, home: Homes, e: Engine, c: Call, q: string, id: Id)
    requires Inv(cfg, home, e, []) && c.op.PollOp? && Allowed(cfg, home, e, c)
    requires id in ReadyOf(cfg, Returned(cfg, e, c.op.queue, c.now), q)
    ensures var o := Step(cfg, e, c); id in ReadyOf(cfg, o.engine, q) || HandsOut(o.events, id)
  {
    hide Balanced, OnePlace, HotCount, BookOf, ClaimFrom, ReadyToClaim, Returned, Q.Drain, Q.IsDrainOrder,
      InOwnShard, Apart;
    var now := c.now;
    var e1 := ReadyToClaim(cfg, e, c.op.queue, now, c.op.max);
    var l := Lease(c.op.queue, now, now + Timeout(cfg, c.op.visibility));
    ReadyBefore(cfg, home, e, c);
    var sh := ShardFor(cfg, e1, c.op.queue);
    assert id in ReadyOf(cfg, e1, q);
    if q == c.op.queue {
      ClaimAnswers(sh, l, c.op.max, c.op.secs, c.op.receipts);
      var ready := if q in sh.queues then Q.Drain(sh.queues[q], now, c.op.secs).ready else [];
      var k :| 0 <= k < |ready| && ready[k] == id;
      var n := Min(c.op.max, |ready|);
      if k < n {
        assert ready[..n][k] == id;
        assert Step(cfg, e, c).events[k].id == id;
      } else {
        assert ready[n..][k - n] == id;
      }
    } else {
      ClaimOther(sh, l, c.op.max, c.op.secs, c.op.receipts, q);
    }
  }

  /** A message whose ended lease a poll collects is due at once: it is ready in its queue, or in the
      dead-letter queue if it has been handed out as often as the limit allows, or the poll hands it out
      again. */
  lemma ReturnedDueAtOnce(cfg: Config, home: Homes, e: Engine, c: Call, id: Id)
    requires Inv(cfg, home, e, []) && Allowed(cfg, home, e, c) && Collected(cfg, e, c, id)
    ensures id in ShardFor(cfg, e, c.op.queue).messages
    ensures var o, msg := Step(cfg, e, c), ShardFor(cfg, e, c.op.queue).messages[id];
            || id in ReadyOf(cfg, o.engine, if cfg.maxDelivery <= msg.delivery then msg.queue + ".dlq" else msg.queue)
            || HandsOut(o.events, id)
  {
    hide Inv, Allowed, Step, ReadyOf, Collected, Returned;
    ReturnedPuts(cfg, home, e, c, id);
    PolledNow(cfg, e, c, id);
    ReadyOrOut(cfg, home, e, c, NextName(cfg, ShardFor(cfg, e, c.op.queue).messages[id]), id);
  }

  lemma PolledNow(cfg: Config, e: Engine, c: Call, id: Id)
    requires Collected(cfg, e, c, id)
    ensures c.op.PollOp?
  {
  }

  lemma EndedIsCollected(w: W.Wheel, id: Id, now: nat)
    requires W.Consistent(w) && W.Fresh(w) && id in w.index && W.LeasesOf(w)[id].expireAt <= now
    ensures id in W.IdsOf(W.Collect(w, now).expired)
  {
    hide W.Collect, W.Represents, W.LeaseOf, W.IdsOf;
    W.FreshCollect(w, now);
    W.ConsistentCollect(w, now);
    var c := W.Collect(w, now);
    assert id in w.index.Keys && (id !in W.IdsOf(c.expired) ==> id in c.wheel.index.Keys);
  }

  /** In every run with leases of at least a second: a poll makes every message of its shard whose lease has
      ended ready in its queue or dead-letter queue, or hands it out again. */
  lemma EndedComeBack(cfg: Config, home: Homes, calls: seq<Call>, id: Id)
    requires AllowedRun(cfg, home, calls) && (forall k :: 0 <= k < |calls| ==> RealLeases(cfg, calls[k]))
    requires 0 < |calls| && calls[|calls| - 1].op.PollOp?
    requires var c := calls[|calls| - 1];
             var w := ShardFor(cfg, Run(cfg, calls[..|calls| - 1]).engine, c.op.queue).wheel;
             W.Shaped(w) && id in w.index && W.LeasesOf(w)[id].expireAt <= c.now
    ensures var c := calls[|calls| - 1];
            var sh := ShardFor(cfg, Run(cfg, calls[..|calls| - 1]).engine, c.op.queue);
            && id in sh.messages
            && (|| id in ReadyOf(cfg, Run(cfg, calls).engine,
                                 if cfg.maxDelivery <= sh.messages[id].delivery then sh.messages[id].queue + ".dlq"
                                 else sh.messages[id].queue)
                || HandsOut(Step(cfg, Run(cfg, calls[..|calls| - 1]).engine, c).events, id))
  {
    hide Balanced, HotCount, BookOf, InOwnShard, Apart, Exact, Allowed, Step, RealLeases, ReadyOf, HandsOut, W.LeasesOf,
      W.Represents, W.Collect, W.IdsOf, Has;
    var front, c := calls[..|calls| - 1], calls[|calls| - 1];
    var e := Run(cfg, front).engine;
    RunFresh(cfg, home, front);
    var s := RunLife(cfg, home, front, id);
    var i := ShardIdx(cfg, c.op.queue);
    assert OnePlace(e.shards[i], {}) && W.Fresh(e.shards[i].wheel);
    EndedIsCollected(e.shards[i].wheel, id, c.now);
    ReturnedDueAtOnce(cfg, home, e, c, id);
  }

  // ---------------------------------------------------------------- poll: nothing late stays hidden

  /** Visible no later than the id allows, or than `t`. */
  function NotAfter(late: Id -> nat, t: nat): Content {
    (id: Id, v: nat, b: Bytes) => v <= late(id) || v <= t
  }

  /** Every push of the call is scheduled for no later than the id allows. */
  ghost predicate Schedules(c: Call, late: Id -> nat) {
    match c.op
    case PushOp(_, item) => c.now + item.delay <= late(item.id)
    case PushBatchOp(_, items, _) => forall k :: 0 <= k < |items| ==> c.now + items[k].delay <= late(items[k].id)
    case _ => true
  }

  lemma NotAfterLater(e: Engine, late: Id -> nat, t: nat, t': nat)
    requires Holding(e, NotAfter(late, t)) && t <= t'
    ensures Holding(e, NotAfter(late, t'))
  {
    var p, p' := NotAfter(late, t), NotAfter(late, t');
    assert forall id: Id, v: nat, b: Bytes :: p(id, v, b) ==> p'(id, v, b);
    forall i | 0 <= i < NUM_SHARDS
      ensures ShardHolds(e.shards[i], p')
    {
      assert ShardHolds(e.shards[i], p);
    }
  }

  lemma SchedulesBrings(cfg: Config, e: Engine, c: Call, late: Id -> nat)
    requires Schedules(c, late)
    ensures Brings(c, NotAfter(late, c.now)) && Renews(cfg, e, c, NotAfter(late, c.now))
  {
    hide Expire;
  }

  lemma {:induction false} RunNotAfter(cfg: Config, home: Homes, calls: seq<Call>, late: Id -> nat)
    requires AllowedRun(cfg, home, calls) && MonotoneClock(calls)
    requires forall k :: 0 <= k < |calls| ==> Schedules(calls[k], late)
    ensures Holding(Run(cfg, calls).engine, NotAfter(late, LastTime(calls)))
  {
    hide Inv, Holding, Step, Allowed, Brings, Renews, Schedules;
    if |calls| == 0 {
      HoldingNew(NotAfter(late, 0));
    } else {
      var front, c := calls[..|calls| - 1], calls[|calls| - 1];
      var e := Run(cfg, front).engine;
      RunNotAfter(cfg, home, front, late);
      NotAfterLater(e, late, LastTime(front), c.now);
      SchedulesBrings(cfg, e, c, late);
      var s := RunLife(cfg, home, front, 0);
      StepHolding(cfg, home, e, c, NotAfter(late, c.now));
    }
  }

  /** With a clock that does not step back: a message that waits in a queue after a poll of it, at or after
      the latest time any push of the message was scheduled for, is ready. */
  lemma NothingLateHidden(cfg: Config, home: Homes, calls: seq<Call>, late: Id -> nat, id: Id)
    requires AllowedRun(cfg, home, calls) && MonotoneClock(calls) && 0 < |calls| && calls[|calls| - 1].op.PollOp?
    requires forall k :: 0 <= k < |calls| ==> Schedules(calls[k], late)
    requires var c := calls[|calls| - 1];
             && late(id) <= c.now
             && Waiting(ShardFor(cfg, Run(cfg, calls).engine, c.op.queue), {}, c.op.queue, id)
    ensures var c := calls[|calls| - 1];
            id in ReadyOf(cfg, Run(cfg, calls).engine, c.op.queue)
  {
    hide AllowedRun, Run, Schedules, RecordsHold;
    var c := calls[|calls| - 1];
    NothingDueHidden(cfg, home, calls, id);
    RunNotAfter(cfg, home, calls, late);
    assert ShardHolds(ShardFor(cfg, Run(cfg, calls).engine, c.op.queue), NotAfter(late, c.now));
  }

  /** So a poll that returns fewer messages than it may leaves none waiting that is due. */
  lemma NothingDueLeft(cfg: Config, home: Homes, calls: seq<Call>, late: Id -> nat, id: Id)
    requires AllowedRun(cfg, home, calls) && MonotoneClock(calls) && 0 < |calls| && calls[|calls| - 1].op.PollOp?
    requires forall k :: 0 <= k < |calls| ==> Schedules(calls[k], late)
    requires var c := calls[|calls| - 1];
             late(id) <= c.now && |Step(cfg, Run(cfg, calls[..|calls| - 1]).engine, c).events| < c.op.max
    ensures var c := calls[|calls| - 1];
            !Waiting(ShardFor(cfg, Run(cfg, calls).engine, c.op.queue), {}, c.op.queue, id)
  {
    hide Step, Allowed, Inv, Waiting, Schedules, MonotoneClock, ReadyOf;
    var front, c := calls[..|calls| - 1], calls[|calls| - 1];
    var s := RunLife(cfg, home, front, 0);
    PollAnswers(cfg, home, Run(cfg, front).engine, c);
    if Waiting(ShardFor(cfg, Run(cfg, calls).engine, c.op.queue), {}, c.op.queue, id) {
      NothingLateHidden(cfg, home, calls, late, id);
      assert false;
    }
  }

  // ---------------------------------------------------------------- push

  /** Where a first push goes: only onto disk when it is delayed by more than 300 s or the RAM holds as many
      messages as it may; otherwise into RAM, straight to the ready queue when it is not delayed. */
  function PlaceOf(cfg: Config, hot: nat, delay: nat): Place {
    if 300 < delay || cfg.cap <= hot then Spilled else if delay == 0 then Ready else Delayed
  }

  lemma AdmitAnswers(cfg: Config, home: Homes, e: Engine, queue: string, item: Item, now: nat)
    requires Inv(cfg, home, e, []) && queue == home(item.id) && !Seen(cfg, e, queue, item.id)
    ensures var o := Admit(cfg, Log(e, PushRecord(queue, item, now)), queue, item, now);
            o.events == [Stored(queue, item.id, PlaceOf(cfg, HotCount(e.shards), item.delay))]
  {
    hide OnePlace, HotCount, RecordOk, SpotOk, InOwnShard, Apart;
    var b, i := BookOf(cfg, e, []), ShardIdx(cfg, queue);
    assert At(cfg, home(item.id), item.id) !in b.seen;
    NotSeenNotHot(cfg, home, b, item.id);
    ShardHot(cfg, home, e, i, item.id);
  }

  /** A push of a new id is accepted and goes where `PlaceOf` says; any other changes nothing but the log. */
  lemma PushAnswers(cfg: Config, home: Homes, e: Engine, c: Call)
    requires Inv(cfg, home, e, []) && c.op.PushOp? && Allowed(cfg, home, e, c)
    ensures var o, item := Step(cfg, e, c), c.op.item;
            if Seen(cfg, e, c.op.queue, item.id) then
              o.events == [] && o.engine == e.(disk := o.engine.disk)
            else o.events == [Stored(c.op.queue, item.id, PlaceOf(cfg, HotCount(e.shards), item.delay))]
  {
    hide Inv, Admit, HotCount;
    if !Seen(cfg, e, c.op.queue, c.op.item.id) {
      AdmitAnswers(cfg, home, e, c.op.queue, c.op.item, c.now);
    }
  }

  /** So does each item of a batch, counting the messages that its earlier items put into RAM. */
  lemma BatchAnswers(cfg: Config, home: Homes, e: Engine, queue: string, items: seq<Item>, now: nat, k: nat)
    requires Inv(cfg, home, e, []) && k < |items| && forall j :: 0 <= j < |items| ==> queue == home(items[j].id)
    ensures var a, b := BatchItems(cfg, e, queue, items[..k], now), BatchItems(cfg, e, queue, items[..k + 1], now);
            b.events == a.events
                        + if Seen(cfg, a.engine, queue, items[k].id) then []
                          else [Stored(queue, items[k].id, PlaceOf(cfg, HotCount(a.engine.shards), items[k].delay))]
  {
    hide Inv, Has, Admit, HotCount;
    var a := BatchItems(cfg, e, queue, items[..k], now);
    PrefixStep(items, k);
    var s := AnyStatus(cfg, home, e, items[k].id);
    BatchSound(cfg, home, e, queue, items[..k], now, items[k].id, s);
    if !Seen(cfg, a.engine, queue, items[k].id) {
      AdmitAnswers(cfg, home, a.engine, queue, items[k], now);
    }
  }

  // ---------------------------------------------------------------- ack

  /** An ack succeeds if and only if the message is on lease under that receipt, in a queue of the shard of
      the queue that the ack names. */
  lemma AckSucceedsIff(cfg: Config, home: Homes, e: Engine, queue: string, a: Receipted, s: Status)
    requires Inv(cfg, home, e, []) && Has(cfg, home, e, [], a.id, s)
    ensures CanAck(cfg, e, queue, a) <==>
            s.OnLease? && s.receipt == a.receipt && ShardIdx(cfg, s.queue) == ShardIdx(cfg, queue)
  {
    hide Balanced, HotCount, Exact, Apart, BookOf, W.HoldsExactly, W.LeaseOf;
    var i := ShardIdx(cfg, queue);
    assert OnePlace(e.shards[i], {}) && InOwnShard(cfg, i, e.shards[i]);
    if CanAck(cfg, e, queue, a) {
      LeasedStatus(cfg, home, e, queue, a, s);
      HotStatus(cfg, home, e, [], i, a.id, s);
    }
    if s.OnLease? && s.receipt == a.receipt && ShardIdx(cfg, s.queue) == i {
      LeaseReceipt(e.shards[i].wheel, a.id);
    }
  }

  lemma LeaseReceipt(w: W.Wheel, id: Id)
    requires W.Consistent(w) && id in w.index
    ensures w.index[id].receipt == W.LeasesOf(w)[id].receipt
  {
  }

  /** A successful ack takes the message out of RAM and off its lease, marks it as acknowledged in its shard, and
      leaves a tombstone in the queue that it names, if that exists; every entry of every queue stays. */
  lemma AckLeaves(cfg: Config, home: Homes, e: Engine, queue: string, a: Receipted)
    requires Inv(cfg, home, e, []) && CanAck(cfg, e, queue, a)
    ensures var i, e' := ShardIdx(cfg, queue), Settle(cfg, e, queue, a).engine;
            var was, sh := e.shards[i], e'.shards[i];
            && e'.shards == e.shards[i := sh] && e'.total == e.total - 1
            && a.id in was.messages && sh.messages == was.messages - {a.id}
            && a.id in was.wheel.index && sh.wheel.index.Keys == was.wheel.index.Keys - {a.id}
            && sh.acked == was.acked + {a.id} && sh.seen == was.seen
            && sh.queues.Keys == was.queues.Keys
            && (forall name :: name in was.queues ==>
                  sh.queues[name] == if name != queue then was.queues[name]
                                     else was.queues[name].(deleted := was.queues[name].deleted + {a.id}))
  {
    hide Balanced, HotCount, BookOf, Exact, Apart, InOwnShard, W.RemoveIfValid, W.Represents;
    var i := ShardIdx(cfg, queue);
    var sh := e.shards[i];
    assert OnePlace(sh, {});
    SettleShard(sh, queue, a);
    SettleShape(cfg, e, queue, a);
    W.ConsistentRemove(sh.wheel, a.id, a.receipt);
    LeasedNotReady(sh, queue, a.id);
  }

  lemma LeasedNotReady(sh: Shard, name: string, id: Id)
    requires OnePlace(sh, {}) && id in sh.wheel.index
    ensures id !in ReadyIn(sh, name)
  {
    hide OnePlace;
    if id in ReadyIn(sh, name) {
      ReadyWaits(sh, name, id);
      assert false;
    }
  }
}
