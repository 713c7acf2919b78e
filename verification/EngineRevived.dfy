/** An acknowledged message can come back: two runs whose log revives one. In the first the message is
    pushed once more after its acknowledgement; in the second it is acknowledged as a dead letter. */
module EngineRevived {
  import opened Basics
  import opened WalCodec
  import opened EngineSpec
  import opened ShardInv
  import opened Books
  import opened EngineSteps
  import opened EngineRuns
  import opened EngineCompaction
  import opened EngineTheorems
  import opened EngineNoLoss
  import opened EngineKept
  import opened EngineRestart
  import Q = Queues
  import W = Wheels

  // ---------------------------------------------------------------- a page-in that brings nothing

  /** No record of the log brings a message in. */
  ghost predicate NothingPages(cfg: Config, e: Engine, log: seq<WalRecord>, now: nat) {
    forall k :: 0 <= k < |log| ==> log[k].Push? && !PagedIn(cfg, e, log[k], now)
  }

  lemma {:induction false} PagesNothing(cfg: Config, e: Engine, records: seq<WalRecord>, now: nat)
    requires NothingPages(cfg, e, records, now)
    ensures PageRecords(cfg, e, records, now) == e
  {
    if records != [] {
      PagesNothing(cfg, e, records[..|records| - 1], now);
      PagePushShape(cfg, e, records[|records| - 1], now);
    }
  }

  lemma GroupedPagesNothing(cfg: Config, e: Engine, e1: Engine, n: nat, now: nat, g: seq<WalRecord>)
    requires NothingPages(cfg, e, e.disk, now) && e.spill + n <= |e.disk| && e1.shards == e.shards
    requires g == Grouped(cfg, e.disk[e.spill..e.spill + n], NUM_SHARDS)
    ensures NothingPages(cfg, e1, g, now)
  {
    hide Grouped;
    GroupedFromDisk(cfg, e.disk, e.spill, e.spill + n, g);
    forall k | 0 <= k < |g|
      ensures g[k].Push? && !PagedIn(cfg, e1, g[k], now)
    {
      assert g[k] in e.disk;
      var j :| 0 <= j < |e.disk| && e.disk[j] == g[k];
    }
  }

  lemma PageStepIdle(cfg: Config, e: Engine, target: string, now: nat, limit: nat, flushed: bool)
    requires NothingPages(cfg, e, e.disk, now)
    ensures PageStep(cfg, e, target, now, limit, flushed).engine.shards == e.shards
  {
    hide Grouped, TargetAdded, HasPush, ChunkLen, NothingPages, PageRecords;
    var n := ChunkLen(e, limit);
    var e1 := e.(spill := e.spill + n);
    var g := Grouped(cfg, e.disk[e.spill..e.spill + n], NUM_SHARDS);
    GroupedPagesNothing(cfg, e, e1, n, now, g);
    PagesNothing(cfg, e1, g, now);
  }

  lemma {:induction false} PageInIdle(cfg: Config, e: Engine, target: string, now: nat, limit: nat, flushed: bool)
    requires NothingPages(cfg, e, e.disk, now)
    ensures PageIn(cfg, e, target, now, limit, flushed).shards == e.shards
    decreases |e.disk| - e.spill, if flushed then 0 else 1
  {
    hide PageStep, NothingPages;
    PageStepIdle(cfg, e, target, now, limit, flushed);
    match PageStep(cfg, e, target, now, limit, flushed)
    case Stop(_) =>
    case Continue(e', flushed') =>
      StillNothingPages(cfg, e, e', now);
      PageInIdle(cfg, e', target, now, limit, flushed');
  }

  // ---------------------------------------------------------------- push, poll, ack, push

  /** The shard of the only message, ready in its queue after `count` hand-outs. */
  ghost predicate JustReady(sh: Shard, queue: string, id: Id, count: nat, now: nat) {
    && queue in sh.queues && sh.queues[queue] == Q.Queue([id], map[], [], {}, now)
    && sh.messages.Keys == {id} && sh.messages[id].queue == queue && sh.messages[id].delivery == count
    && W.Consistent(sh.wheel) && sh.wheel.index == map[]
  }

  ghost predicate RestNew(e: Engine, i: nat) {
    forall j :: 0 <= j < NUM_SHARDS && j != i ==> e.shards[j] == NewShard()
  }

  lemma PushedReady(cfg: Config, queue: string, item: Item, now: nat)
    requires 0 < cfg.cap && item.delay == 0
    ensures var o := PushOne(cfg, NewEngine(), queue, item, now);
            && o.events == [Stored(queue, item.id, Ready)] && o.engine.disk == [PushRecord(queue, item, now)]
            && JustReady(ShardFor(cfg, o.engine, queue), queue, item.id, 0, now)
            && RestNew(o.engine, ShardIdx(cfg, queue))
  {
    W.ConsistentNew(3600);
    assert [] + [item.id] == [item.id];
    assert [] + [PushRecord(queue, item, now)] == [PushRecord(queue, item, now)];
  }

  /** Nothing is returned and nothing is paged in. */
  lemma ReadyThere(cfg: Config, e: Engine, queue: string, id: Id, count: nat, now: nat, max: nat)
    requires JustReady(ShardFor(cfg, e, queue), queue, id, count, now) && NothingPages(cfg, e, e.disk, now)
    ensures var i, e' := ShardIdx(cfg, queue), ReadyToClaim(cfg, e, queue, now, max);
            && e'.shards == e.shards[i := e'.shards[i]]
            && JustReady(e'.shards[i], queue, id, count, now) && e'.shards[i].wheel.lastChecked == now
  {
    hide PageIn, NothingPages;
    var i := ShardIdx(cfg, queue);
    var t := Expire(e.shards[i], now);
    W.ConsistentCollect(e.shards[i].wheel, now);
    assert t.limbo == [] && t.shard == e.shards[i].(wheel := t.shard.wheel) && t.shard.wheel.index == map[];
    var e1 := WithShard(e, i, t.shard);
    assert Returned(cfg, e, queue, now) == e1;
    StillNothingPages(cfg, e, e1, now);
    PageInIdle(cfg, e1, queue, now, Max(Prefetch(max), 1000), false);
  }

  lemma StillNothingPages(cfg: Config, e: Engine, e1: Engine, now: nat)
    requires NothingPages(cfg, e, e.disk, now) && e1.disk == e.disk
    requires forall i :: 0 <= i < NUM_SHARDS ==>
               e1.shards[i].messages == e.shards[i].messages && e1.shards[i].acked == e.shards[i].acked
    ensures NothingPages(cfg, e1, e1.disk, now)
  {
  }

  lemma DrainsReady(id: Id, now: nat)
    ensures var q := Q.Queue([id], map[], [], {}, now);
            && Q.IsDrainOrder(q, now, [])
            && Claim(Q.Drain(q, now, []), 1) == Claimed(Q.Queue([], map[], [], {}, now), [id])
  {
    var q := Q.Queue([id], map[], [], {}, now);
    assert Q.Promote(q, [], now + Q.HORIZON) == q;
    assert Q.DueSecs(q, now) == {};
    assert Q.Drain(q, now, []) == q;
    assert [id][1..] == [];
    assert Q.PopReady(q).id == Some(id);
    assert Claim(Q.PopReady(q).queue, 0).ids == [];
    assert [id] + [] == [id];
  }

  /** The shard of the only message, on lease until `until`. */
  ghost predicate JustLeased(sh: Shard, queue: string, id: Id, count: nat, now: nat, until: nat, receipt: Receipt) {
    && queue in sh.queues && sh.queues[queue] == Q.Queue([], map[], [], {}, now)
    && sh.messages.Keys == {id} && sh.messages[id].queue == queue && sh.messages[id].delivery == count
    && W.Consistent(sh.wheel) && sh.wheel.index.Keys == {id} && W.Valid(sh.wheel, id, receipt)
    && sh.wheel.lastChecked == now && W.LeasesOf(sh.wheel)[id].expireAt == until
  }

  lemma LeasesReady(sh: Shard, id: Id, l: Lease, receipts: nat -> Receipt)
    requires id in sh.messages
    ensures var m := sh.messages[id];
            LeaseAll(sh, [id], l, receipts).shard
            == sh.(messages := sh.messages[id := m.(delivery := m.delivery + 1)],
                   wheel := W.Insert(sh.wheel, W.Item(id, l.queue, receipts(0), l.until)))
  {
    assert [id][..0] == [];
    assert LeaseAll(sh, [], l, receipts) == Leased(sh, []);
  }

  lemma LeasedNow(sh: Shard, queue: string, id: Id, count: nat, l: Lease, receipts: nat -> Receipt)
    requires JustReady(sh, queue, id, count, l.now) && sh.wheel.lastChecked == l.now
    ensures var sh1 := sh.(queues := sh.queues[queue := Q.Queue([], map[], [], {}, l.now)]);
            JustLeased(LeaseAll(sh1, [id], l, receipts).shard, queue, id, count + 1, l.now, l.until, receipts(0))
  {
    hide LeaseAll;
    var sh1 := sh.(queues := sh.queues[queue := Q.Queue([], map[], [], {}, l.now)]);
    LeasesReady(sh1, id, l, receipts);
    W.ConsistentInsert(sh.wheel, W.Item(id, l.queue, receipts(0), l.until));
  }

  /** A poll for one message hands it out. */
  lemma PolledReady(cfg: Config, e: Engine, queue: string, id: Id, count: nat, now: nat, visibility: nat,
                    receipts: nat -> Receipt)
    requires JustReady(ShardFor(cfg, e, queue), queue, id, count, now) && NothingPages(cfg, e, e.disk, now)
    ensures var qs := ShardFor(cfg, ReadyToClaim(cfg, e, queue, now, 1), queue).queues;
            queue in qs && Q.IsDrainOrder(qs[queue], now, [])
    ensures var i, e' := ShardIdx(cfg, queue), Poll(cfg, e, queue, now, visibility, 1, [], receipts).engine;
            && e'.shards == e.shards[i := e'.shards[i]]
            && JustLeased(e'.shards[i], queue, id, count + 1, now, now + Timeout(cfg, visibility), receipts(0))
  {
    hide ReadyToClaim, NothingPages, LeaseAll, Q.Drain, Claim, W.Valid, W.Consistent, W.LeasesOf;
    ReadyThere(cfg, e, queue, id, count, now, 1);
    DrainsReady(id, now);
    var i, e1 := ShardIdx(cfg, queue), ReadyToClaim(cfg, e, queue, now, 1);
    LeasedNow(e1.shards[i], queue, id, count, Lease(queue, now, now + Timeout(cfg, visibility)), receipts);
  }

  lemma LeasedCanAck(cfg: Config, e: Engine, queue: string, id: Id, count: nat, now: nat, until: nat, receipt: Receipt)
    requires JustLeased(ShardFor(cfg, e, queue), queue, id, count, now, until, receipt)
    ensures CanAck(cfg, e, queue, Receipted(id, receipt))
  {
  }

  // ---------------------------------------------------------------- pushed once more

  lemma HotPagesNothing(cfg: Config, e: Engine, r: WalRecord, now: nat)
    requires e.disk == [r] && r.Push? && r.id in ShardFor(cfg, e, r.queue).messages
    ensures NothingPages(cfg, e, e.disk, now)
  {
  }

  lemma ReadyIsHot(sh: Shard, queue: string, id: Id, now: nat)
    requires JustReady(sh, queue, id, 0, now)
    ensures id in sh.messages
  {
  }

  lemma AckHappened(cfg: Config, e: Engine, queue: string, a: Receipted)
    requires CanAck(cfg, e, queue, a)
    ensures AckOne(cfg, e, queue, a).events == [Acked(queue, a.id, a.receipt)]
  {
  }

  lemma Acknowledged(first: Event, polled: seq<Event>, ack: Event, rest: seq<Event>)
    requires ack.Acked?
    ensures var events := [] + [first] + polled + [ack] + rest;
            events != [] && events[0] == first && HasAck(events, ack.id)
  {
    var events := [] + [first] + polled + [ack] + rest;
    assert events[1 + |polled|] == ack;
  }

  /** A single push after everything else makes the message stale. */
  lemma StaleLast(cfg: Config, calls: seq<Call>, c: Call, id: Id)
    requires Relogs(c, id)
    ensures Stale(cfg, calls + [c], id)
  {
    hide Run;
    Snoc(calls, c);
  }

  /** For every configuration with room in RAM: pushing an id once more after it was acknowledged is
      refused, but its record comes after the Ack in the log, so the next restart revives the message. */
  lemma RepushRevives(cfg: Config, home: Homes, item: Item, now: nat, visibility: nat,
                      receipts: nat -> Receipt) returns (calls: seq<Call>)
    requires 0 < cfg.cap && item.delay == 0
    ensures AllowedRun(cfg, home, calls)
    ensures var disk, events := Run(cfg, calls).engine.disk, RunEvents(cfg, calls);
            && events != [] && events[0].Stored? && events[0].id == item.id
            && HasAck(events, item.id) && Returns(cfg, disk, item.id)
  {
    hide Run, AllowedRun, RunEvents, PushOne, Poll, ReadyToClaim, CanAck, Settle, JustReady, JustLeased,
      NothingPages, HasAck, Returns, Stale;
    var q, a := home(item.id), Receipted(item.id, receipts(0));
    var push, poll := Call(now, PushOp(q, item)), Call(now, PollOp(q, visibility, 1, [], receipts));
    var ack := Call(now, AckOp(q, a));
    NewRun(cfg, home);
    OneMore(cfg, home, [], push);
    PushedReady(cfg, q, item, now);
    var one := [] + [push];
    ReadyIsHot(ShardFor(cfg, Run(cfg, one).engine, q), q, item.id, now);
    HotPagesNothing(cfg, Run(cfg, one).engine, PushRecord(q, item, now), now);
    PolledReady(cfg, Run(cfg, one).engine, q, item.id, 0, now, visibility, receipts);
    OneMore(cfg, home, one, poll);
    var two := one + [poll];
    LeasedCanAck(cfg, Run(cfg, two).engine, q, item.id, 1, now, now + Timeout(cfg, visibility), receipts(0));
    OneMore(cfg, home, two, ack);
    var three := two + [ack];
    OneMore(cfg, home, three, push);
    calls := three + [push];
    AckHappened(cfg, Run(cfg, two).engine, q, a);
    Acknowledged(Stored(q, item.id, Ready), Step(cfg, Run(cfg, one).engine, poll).events, Acked(q, a.id, a.receipt),
                 Step(cfg, Run(cfg, three).engine, push).events);
    StaleLast(cfg, three, push, item.id);
    ReturnsIff(cfg, home, calls, 0);
  }

  // ---------------------------------------------------------------- acknowledged as a dead letter

  lemma AtMostOne(items: seq<W.Item>, id: Id)
    requires DistinctIds(items)
    ensures (forall k :: 0 <= k < |items| ==> items[k].id == id) ==> |items| <= 1
  {
    if 1 < |items| {
      assert items[0].id != items[1].id;
    }
  }

  /** The only lease of a wheel is collected once it has ended. */
  lemma OnlyLeaseEnds(w: W.Wheel, id: Id, t: nat)
    requires W.Consistent(w) && w.index.Keys == {id} && 0 < w.lastChecked < W.LeasesOf(w)[id].expireAt <= t
    ensures var expired := W.Collect(w, t).expired;
            |expired| == 1 && expired[0].id == id
  {
    hide W.Collect, W.Represents, W.LeaseOf;
    var c := W.Collect(w, t);
    W.FreshCollect(w, t);
    W.ConsistentCollect(w, t);
    assert forall k :: 0 <= k < |c.expired| ==> c.expired[k].id in w.index.Keys;
    AtMostOne(c.expired, id);
    assert |c.expired| == 0 ==> id in c.wheel.index.Keys;
  }

  lemma ExpiresAlone(sh: Shard, queue: string, id: Id, count: nat, now: nat, until: nat, receipt: Receipt, t: nat)
    requires JustLeased(sh, queue, id, count, now, until, receipt) && OnePlace(sh, {}) && 0 < now < until <= t
    ensures var x := Expire(sh, t);
            && x.limbo == [Limbo(id, sh.messages[id])] && x.shard.messages == map[]
            && x.shard == sh.(messages := x.shard.messages, wheel := x.shard.wheel)
  {
    hide OnePlace, Expire, W.Collect, W.Consistent, W.LeasesOf, W.Valid;
    OnlyLeaseEnds(sh.wheel, id, t);
    ExpireShard(sh, t);
    var items := W.Collect(sh.wheel, t).expired;
    assert items[0] in items && id in W.IdsOf(items);
  }

  lemma DeadLettered(cfg: Config, e: Engine, queue: string, id: Id, now: nat, until: nat, receipt: Receipt, t: nat)
    requires JustLeased(ShardFor(cfg, e, queue), queue, id, 1, now, until, receipt)
             && OnePlace(ShardFor(cfg, e, queue), {})
    requires 0 < now < until <= t && cfg.maxDelivery <= 1
    requires RestNew(e, ShardIdx(cfg, queue)) && ShardIdx(cfg, DeadLetter(queue)) != ShardIdx(cfg, queue)
    ensures var e', sh := Returned(cfg, e, queue, t), ShardFor(cfg, Returned(cfg, e, queue, t), queue);
            && e'.disk == e.disk && id in sh.acked && queue in sh.queues
            && sh.queues[queue] == Q.Queue([], map[], [], {id}, now)
            && JustReady(ShardFor(cfg, e', DeadLetter(queue)), DeadLetter(queue), id, 1, t)
  {
    hide OnePlace, Expire, W.LeasesOf, W.Consistent, W.Valid;
    var i := ShardIdx(cfg, queue);
    var sh, x := e.shards[i], Expire(e.shards[i], t);
    ExpiresAlone(sh, queue, id, 1, now, until, receipt, t);
    var e0, limbo := WithShard(e, i, x.shard), Limbo(id, sh.messages[id]);
    assert [limbo][..0] == [] && [limbo][0] == limbo;
    assert RouteAll(cfg, e0, [], t) == e0;
    assert Returned(cfg, e, queue, t) == Route(cfg, e0, limbo, t);
    RoutedDead(cfg, e0, limbo, now, t);
  }

  lemma RoutedDead(cfg: Config, e: Engine, x: Limbo, now: nat, t: nat)
    requires cfg.maxDelivery <= x.msg.delivery == 1
    requires var q, i := x.msg.queue, ShardIdx(cfg, x.msg.queue);
             && q in e.shards[i].queues && e.shards[i].queues[q] == Q.Queue([], map[], [], {}, now)
             && RestNew(e, i) && ShardIdx(cfg, DeadLetter(q)) != i
    ensures var e', q := Route(cfg, e, x, t), x.msg.queue;
            var sh := ShardFor(cfg, e', q);
            && e'.disk == e.disk && x.id in sh.acked && q in sh.queues
            && sh.queues[q] == Q.Queue([], map[], [], {x.id}, now)
            && JustReady(ShardFor(cfg, e', DeadLetter(q)), DeadLetter(q), x.id, 1, t)
  {
    W.ConsistentNew(3600);
    assert [] + [x.id] == [x.id];
  }

  lemma NothingReady(id: Id, now: nat, t: nat, max: nat)
    requires now <= t
    ensures var q := Q.Queue([], map[], [], {id}, now);
            Q.IsDrainOrder(q, t, []) && Claim(Q.Drain(q, t, []), max).ids == []
  {
    var q := Q.Queue([], map[], [], {id}, now);
    assert Q.Promote(q, [], t + Q.HORIZON) == q;
    assert Q.DueSecs(q, t) == {};
    assert Q.Drain(q, t, []) == q.(lastDrained := t);
  }

  lemma NothingLeased(sh: Shard, l: Lease, receipts: nat -> Receipt)
    ensures LeaseAll(sh, [], l, receipts) == Leased(sh, [])
  {
  }

  /** A poll of the home queue after the lease has ended dead-letters the message. */
  lemma PolledDead(cfg: Config, e: Engine, queue: string, id: Id, now: nat, until: nat, receipt: Receipt, t: nat,
                   visibility: nat, receipts: nat -> Receipt, r: WalRecord)
    requires JustLeased(ShardFor(cfg, e, queue), queue, id, 1, now, until, receipt)
             && OnePlace(ShardFor(cfg, e, queue), {})
    requires 0 < now < until <= t && cfg.maxDelivery <= 1 && e.disk == [r] && r.Push? && r.id == id && r.queue == queue
    requires RestNew(e, ShardIdx(cfg, queue)) && ShardIdx(cfg, DeadLetter(queue)) != ShardIdx(cfg, queue)
    ensures var qs := ShardFor(cfg, ReadyToClaim(cfg, e, queue, t, 1), queue).queues;
            queue in qs && Q.IsDrainOrder(qs[queue], t, [])
    ensures var e' := Poll(cfg, e, queue, t, visibility, 1, [], receipts).engine;
            && NothingPages(cfg, e', e'.disk, t) && e'.disk == [r]
            && JustReady(ShardFor(cfg, e', DeadLetter(queue)), DeadLetter(queue), id, 1, t)
  {
    hide Returned, PageIn, NeedsPageIn, LeaseAll, Q.Drain, Claim, JustLeased, W.Consistent, OnePlace;
    var i, e1 := ShardIdx(cfg, queue), Returned(cfg, e, queue, t);
    DeadLettered(cfg, e, queue, id, now, until, receipt, t);
    PageInIdle(cfg, e1, queue, t, Max(Prefetch(1), 1000), false);
    var e2 := ReadyToClaim(cfg, e, queue, t, 1);
    assert e2.shards == e1.shards;
    NothingReady(id, now, t, 1);
    var l, sh := Lease(queue, t, t + Timeout(cfg, visibility)), e2.shards[i];
    var got := Claim(Q.Drain(sh.queues[queue], t, []), 1);
    NothingLeased(sh.(queues := sh.queues[queue := got.queue]), l, receipts);
  }

  /** For every configuration with room in RAM and a delivery limit of one: a message whose dead-letter
      queue lies in another shard is acknowledged there, but nothing about that reaches the shard of its
      Push record, so the next restart revives it. The two hand-outs carry different receipts. */
  lemma DeadLetterRevives(cfg: Config, home: Homes, item: Item, now: nat, t: nat, receipts: nat -> Receipt,
                          receipts': nat -> Receipt) returns (calls: seq<Call>)
    requires 0 < cfg.cap && item.delay == 0 && cfg.maxDelivery <= 1 && 0 < cfg.defaultTimeout
    requires 0 < now && now + cfg.defaultTimeout <= t && receipts(0) != receipts'(0)
    requires ShardIdx(cfg, DeadLetter(home(item.id))) != ShardIdx(cfg, home(item.id))
    ensures AllowedRun(cfg, home, calls) && MonotoneClock(calls)
    ensures var disk, events := Run(cfg, calls).engine.disk, RunEvents(cfg, calls);
            && events != [] && events[0].Stored? && events[0].id == item.id
            && HasAck(events, item.id) && Returns(cfg, disk, item.id)
  {
    hide Run, AllowedRun, RunEvents, PushOne, Poll, ReadyToClaim, CanAck, Settle, JustReady, JustLeased,
      NothingPages, HasAck, Returns, Stale, OnePlace, HotCount;
    var q, d, until := home(item.id), DeadLetter(home(item.id)), now + cfg.defaultTimeout;
    var a, r := Receipted(item.id, receipts'(0)), PushRecord(home(item.id), item, now);
    var push, poll := Call(now, PushOp(q, item)), Call(now, PollOp(q, 0, 1, [], receipts));
    var again, dead := Call(t, PollOp(q, 0, 1, [], receipts)), Call(t, PollOp(d, 0, 1, [], receipts'));
    var ack := Call(t, AckOp(d, a));
    NewRun(cfg, home);
    OneMore(cfg, home, [], push);
    PushedReady(cfg, q, item, now);
    var one := [] + [push];
    ReadyIsHot(ShardFor(cfg, Run(cfg, one).engine, q), q, item.id, now);
    HotPagesNothing(cfg, Run(cfg, one).engine, r, now);
    PolledReady(cfg, Run(cfg, one).engine, q, item.id, 0, now, 0, receipts);
    OneMore(cfg, home, one, poll);
    var two := one + [poll];
    PollKeepsLog(cfg, Run(cfg, one).engine, poll);
    EveryRunOnePlace(cfg, home, two);
    PolledDead(cfg, Run(cfg, two).engine, q, item.id, now, until, receipts(0), t, 0, receipts, r);
    OneMore(cfg, home, two, again);
    var three := two + [again];
    PolledReady(cfg, Run(cfg, three).engine, d, item.id, 1, t, 0, receipts');
    OneMore(cfg, home, three, dead);
    var four := three + [dead];
    PollKeepsLog(cfg, Run(cfg, three).engine, dead);
    LeasedCanAck(cfg, Run(cfg, four).engine, d, item.id, 2, t, t + cfg.defaultTimeout, receipts'(0));
    OneMore(cfg, home, four, ack);
    calls := four + [ack];
    AckHappened(cfg, Run(cfg, four).engine, d, a);
    AcknowledgedLast(Stored(q, item.id, Ready), Step(cfg, Run(cfg, one).engine, poll).events,
                     Step(cfg, Run(cfg, two).engine, again).events, Step(cfg, Run(cfg, three).engine, dead).events,
                     Acked(d, a.id, a.receipt));
    StaleAck(cfg, four, ack, r);
    ReturnsIff(cfg, home, calls, 0);
  }

  lemma PollKeepsLog(cfg: Config, e: Engine, c: Call)
    requires c.op.PollOp?
    ensures Step(cfg, e, c).engine.disk == e.disk
  {
    hide Step;
    PollDisk(cfg, e, c);
    EmptyRight(e.disk);
  }

  lemma AcknowledgedLast(first: Event, a: seq<Event>, b: seq<Event>, c: seq<Event>, ack: Event)
    requires ack.Acked?
    ensures var events := [] + [first] + a + b + c + [ack];
            events != [] && events[0] == first && HasAck(events, ack.id)
  {
    var events := [] + [first] + a + b + c + [ack];
    assert events[|events| - 1] == ack;
  }

  /** An ack in another shard than the Push record leaves the message stale. */
  lemma StaleAck(cfg: Config, calls: seq<Call>, c: Call, r: WalRecord)
    requires c.op.AckOp? && CanAck(cfg, Run(cfg, calls).engine, c.op.queue, c.op.ack) && c.op.ack.id == r.id
    requires Run(cfg, calls).engine.disk == [r] && r.Push? && ShardIdx(cfg, r.queue) != ShardIdx(cfg, c.op.queue)
    ensures Stale(cfg, calls + [c], r.id)
  {
    hide Run, CanAck;
    Snoc(calls, c);
    assert Run(cfg, calls).engine.disk[0] == r;
  }
}
