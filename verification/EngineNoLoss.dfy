/** No message is lost by being spilled to disk. */
module EngineNoLoss {
  import opened Basics
  import opened WalCodec
  import opened EngineSpec
  import opened Books
  import opened EngineSteps
  import opened Lifecycle
  import opened EngineLife
  import opened EngineRuns
  import opened EngineTheorems
  import opened EngineContents
  import Q = Queues

  /** The Push record of the message is still ahead of the page-in position. */
  ghost predicate OnDisk(e: Engine, id: Id) {
    exists k :: e.spill <= k < |e.disk| && e.disk[k].Push? && e.disk[k].id == id
  }

  /** A cold message is not lost. */
  ghost predicate Safe(e: Engine, id: Id, s: Status) {
    s.Cold? ==> OnDisk(e, id)
  }

  /** Visible no later than `limit`. */
  function DueBy(limit: nat): Content {
    (id: Id, v: nat, b: Bytes) => v <= limit
  }

  /** No message on disk or in RAM becomes visible after `limit`. */
  ghost predicate Recent(e: Engine, limit: nat) {
    Holding(e, DueBy(limit))
  }

  // ---------------------------------------------------------------- cold messages stay ahead of the page-in position

  lemma SafeAdmit(cfg: Config, e: Engine, queue: string, item: Item, now: nat, id: Id, s: Status)
    requires Safe(e, id, s)
    ensures var o := Admit(cfg, Log(e, PushRecord(queue, item, now)), queue, item, now);
            Safe(o.engine, id, FireAll(s, Project(o.events, id)))
  {
    hide Admit, FireAll, Project;
    var r, o := PushRecord(queue, item, now), Admit(cfg, Log(e, PushRecord(queue, item, now)), queue, item, now);
    AdmitShape(cfg, e, queue, item, now);
    if id == item.id {
      assert o.engine.disk[|e.disk|] == r;
    } else {
      AdmitEvent(cfg, Log(e, r), queue, item, now, id, s);
      OnDiskGrows(e, o.engine, [r], id);
    }
  }

  lemma AdmitEvent(cfg: Config, e: Engine, queue: string, item: Item, now: nat, id: Id, s: Status)
    requires id != item.id
    ensures FireAll(s, Project(Admit(cfg, e, queue, item, now).events, id)) == s
  {
    ProjectOne(queue, s, Admit(cfg, e, queue, item, now).events[0], id, now);
  }

  lemma OnDiskGrows(e: Engine, e': Engine, more: seq<WalRecord>, id: Id)
    requires e'.disk == e.disk + more && e'.spill <= e.spill
    ensures OnDisk(e, id) ==> OnDisk(e', id)
  {
    if OnDisk(e, id) {
      var k :| e.spill <= k < |e.disk| && e.disk[k].Push? && e.disk[k].id == id;
      assert e'.disk[k] == e.disk[k];
    }
  }

  lemma SafeThen(a: seq<Event>, b: seq<Event>, e: Engine, id: Id, s: Status)
    requires Safe(e, id, FireAll(FireAll(s, Project(a, id)), Project(b, id)))
    ensures Safe(e, id, FireAll(s, Project(a + b, id)))
  {
    ProjectSplit(a, b, id);
    FireThen(s, Project(a, id), Project(b, id));
  }

  lemma {:induction false} SafeBatch(cfg: Config, e: Engine, queue: string, items: seq<Item>, now: nat, id: Id,
                                     s: Status)
    requires Safe(e, id, s)
    ensures var o := BatchItems(cfg, e, queue, items, now);
            Safe(o.engine, id, FireAll(s, Project(o.events, id)))
  {
    hide Safe, Admit;
    if items != [] {
      var front, item := items[..|items| - 1], items[|items| - 1];
      SafeBatch(cfg, e, queue, front, now, id, s);
      var a := BatchItems(cfg, e, queue, front, now);
      var b := BatchItem(cfg, a.engine, queue, item, now);
      SafeAdmit(cfg, a.engine, queue, item, now, id, FireAll(s, Project(a.events, id)));
      SafeThen(a.events, b.events, b.engine, id, s);
    }
  }

  lemma SafeSettle(cfg: Config, e: Engine, queue: string, a: Receipted, now: nat, id: Id, s: Status)
    requires Safe(e, id, s)
    ensures var o := Settle(cfg, e, queue, a);
            Safe(o.engine, id, FireAll(s, Project(o.events, id)))
  {
    hide FireAll, Project;
    ProjectOne(queue, s, Acked(queue, a.id, a.receipt), id, now);
    OnDiskGrows(e, Settle(cfg, e, queue, a).engine, [WalRecord.Ack(a.id, queue)], id);
  }

  lemma {:induction false} SafeAcks(cfg: Config, e: Engine, queue: string, acks: seq<Receipted>, now: nat, id: Id,
                                    s: Status)
    requires Safe(e, id, s)
    ensures var o := AckItems(cfg, e, queue, acks);
            Safe(o.engine, id, FireAll(s, Project(o.events, id)))
  {
    hide Safe, Settle, CanAck;
    if acks != [] {
      var front, item := acks[..|acks| - 1], acks[|acks| - 1];
      SafeAcks(cfg, e, queue, front, now, id, s);
      var a := AckItems(cfg, e, queue, front);
      var b := AckOne(cfg, a.engine, queue, item);
      SafeSettle(cfg, a.engine, queue, item, now, id, FireAll(s, Project(a.events, id)));
      SafeThen(a.events, b.events, b.engine, id, s);
    }
  }

  /** Compaction happens only when nothing is ahead of the page-in position, so nothing is cold. */
  lemma SafeCompact(cfg: Config, e: Engine, survivors: seq<WalRecord>, id: Id, s: Status)
    requires Safe(e, id, s)
    ensures Safe(MaybeCompact(cfg, e, survivors), id, s)
  {
  }

  lemma ChunkOffers(e: Engine, n: nat, id: Id, now: nat)
    requires RecordsHold(e.disk, DueBy(now + Q.HORIZON)) && OnDisk(e, id) && e.spill + n <= |e.disk|
    requires forall k :: e.spill <= k < e.spill + n ==> !Offers(e.disk[k], id, now)
    ensures OnDisk(e.(spill := e.spill + n), id)
  {
    var k :| e.spill <= k < |e.disk| && e.disk[k].Push? && e.disk[k].id == id;
    assert Offers(e.disk[k], id, now);
  }

  lemma SafePageStep(cfg: Config, home: Homes, e: Engine, target: string, now: nat, limit: nat, flushed: bool,
                     id: Id, s: Status)
    returns (s': Status)
    requires Inv(cfg, home, e, []) && Has(cfg, home, e, [], id, s) && Safe(e, id, s) && Recent(e, now + Q.HORIZON)
    ensures var e' := PageStep(cfg, e, target, now, limit, flushed).engine;
            Has(cfg, home, e', [], id, s') && Fetched(home(id), s, s') && Safe(e', id, s')
  {
    hide Inv, Has, Grouped, PageRecords, OnDisk, RecordsHold, Offers, Offered, HasPush;
    var n := ChunkLen(e, limit);
    var e1 := PageStep(cfg, e, target, now, limit, flushed).engine;
    s' := PageStepLife(cfg, home, e, target, now, limit, flushed, id, s);
    if s'.Cold? && 0 < n {
      ChunkOffers(e, n, id, now);
      SameOnDisk(e.(spill := e.spill + n), e1, id);
    } else if n == 0 {
      EmptyRight(e.disk);
      OnDiskGrows(e, e1, [], id);
    }
  }

  lemma SameOnDisk(a: Engine, b: Engine, id: Id)
    requires a.disk == b.disk && a.spill == b.spill
    ensures OnDisk(a, id) <==> OnDisk(b, id)
  {
  }

  lemma {:induction false} SafePageIn(cfg: Config, home: Homes, e: Engine, target: string, now: nat, limit: nat,
                                      flushed: bool, id: Id, s: Status)
    returns (s': Status)
    requires Inv(cfg, home, e, []) && Has(cfg, home, e, [], id, s) && Safe(e, id, s) && Recent(e, now + Q.HORIZON)
    ensures var e' := PageIn(cfg, e, target, now, limit, flushed);
            Has(cfg, home, e', [], id, s') && Safe(e', id, s') && Recent(e', now + Q.HORIZON)
    decreases |e.disk| - e.spill, if flushed then 0 else 1
  {
    hide Inv, Has, Safe, Holding;
    s' := SafePageStep(cfg, home, e, target, now, limit, flushed, id, s);
    PageStepInv(cfg, home, e, target, now, limit, flushed);
    HoldingPageStep(cfg, e, target, now, limit, flushed, DueBy(now + Q.HORIZON));
    match PageStep(cfg, e, target, now, limit, flushed)
    case Stop(_) =>
    case Continue(e', flushed') =>
      s' := SafePageIn(cfg, home, e', target, now, limit, flushed', id, s');
  }

  lemma SafeReturned(cfg: Config, home: Homes, e: Engine, queue: string, now: nat, id: Id,
                     s: Status) returns (s': Status)
    requires Inv(cfg, home, e, []) && Has(cfg, home, e, [], id, s) && Safe(e, id, s) && Recent(e, now + Q.HORIZON)
    ensures var e' := Returned(cfg, e, queue, now);
            Inv(cfg, home, e', []) && Has(cfg, home, e', [], id, s') && Safe(e', id, s') && Recent(e', now + Q.HORIZON)
  {
    hide Inv, Has, Expire, OnDisk, Holding;
    var i := ShardIdx(cfg, queue);
    var t := Expire(e.shards[i], now);
    NotReturning(cfg, home, e, id, s);
    s' := ReturnedLife(cfg, home, e, queue, now, id, s);
    HoldingReturned(cfg, home, e, queue, now, DueBy(now + Q.HORIZON));
    RoutedKeeps(cfg, WithShard(e, i, t.shard), t.limbo, now);
    SameOnDisk(e, Returned(cfg, e, queue, now), id);
  }

  lemma SafePoll(cfg: Config, home: Homes, e: Engine, c: Call, id: Id, s: Status) returns (s': Status)
    requires Inv(cfg, home, e, []) && Has(cfg, home, e, [], id, s) && Safe(e, id, s) && Recent(e, c.now + Q.HORIZON)
    requires c.op.PollOp? && Allowed(cfg, home, e, c)
    ensures var e' := Step(cfg, e, c).engine;
            Inv(cfg, home, e', []) && Has(cfg, home, e', [], id, s') && Safe(e', id, s')
              && Recent(e', c.now + Q.HORIZON)
  {
    hide Inv, Has, OnDisk, Holding, NeedsPageIn, Returned, PageIn, ClaimFrom;
    var q, now, max := c.op.queue, c.now, c.op.max;
    s' := SafeReturned(cfg, home, e, q, now, id, s);
    var e1 := Returned(cfg, e, q, now);
    if NeedsPageIn(cfg, e1, q, max) {
      PageInInv(cfg, home, e1, q, now, Max(Prefetch(max), 1000), false);
      s' := SafePageIn(cfg, home, e1, q, now, Max(Prefetch(max), 1000), false, id, s');
    }
    var e2, l := ReadyToClaim(cfg, e, q, now, max), Lease(q, now, now + Timeout(cfg, c.op.visibility));
    ClaimInv(cfg, home, e2, l, max, c.op.secs, c.op.receipts);
    ClaimLife(cfg, home, e2, l, max, c.op.secs, c.op.receipts, id, s');
    HoldingClaim(cfg, home, e2, l, max, c.op.secs, c.op.receipts, DueBy(now + Q.HORIZON));
    var i := ShardIdx(cfg, q);
    var r := ClaimFrom(e2.shards[i], l, max, c.op.secs, c.op.receipts);
    SameOnDisk(e2, WithShard(e2, i, r.shard), id);
    DeliveredNotCold(s', Project(r.events, id));
    s' := FireAll(s', Project(r.events, id));
  }

  lemma DeliveredNotCold(s: Status, events: seq<Event>)
    requires forall k :: 0 <= k < |events| ==> events[k].Delivered?
    ensures FireAll(s, events).Cold? ==> s.Cold?
  {
  }

  // ---------------------------------------------------------------- whole runs

  /** No push of the call is delayed beyond the horizon. */
  ghost predicate ShortDelays(c: Call) {
    match c.op
    case PushOp(_, item) => item.delay <= Q.HORIZON
    case PushBatchOp(_, items, _) => forall k :: 0 <= k < |items| ==> items[k].delay <= Q.HORIZON
    case _ => true
  }

  lemma SafeStep(cfg: Config, home: Homes, e: Engine, c: Call, id: Id, s: Status) returns (s': Status)
    requires Inv(cfg, home, e, []) && Has(cfg, home, e, [], id, s) && Safe(e, id, s) && Recent(e, c.now + Q.HORIZON)
    requires Allowed(cfg, home, e, c) && ShortDelays(c)
    ensures var e' := Step(cfg, e, c).engine;
            Inv(cfg, home, e', []) && Has(cfg, home, e', [], id, s') && Safe(e', id, s')
              && Recent(e', c.now + Q.HORIZON)
  {
    hide Inv, Has, Safe, Holding, Lists, MaybeCompact, CanAck, Poll, PushOne, AckOne, FireAll, Project, BatchItems,
      AckItems;
    match c.op
    case PollOp(_, _, _, _, _) =>
      s' := SafePoll(cfg, home, e, c, id, s);
    case PushOp(_, _) =>
      s' := SafePush(cfg, home, e, c, id, s);
    case PushBatchOp(q, items, survivors) =>
      var o := BatchItems(cfg, e, q, items, c.now);
      BatchSound(cfg, home, e, q, items, c.now, id, s);
      CompactSound(cfg, home, e, o, survivors, c.now, id, s);
      s' := FireAll(s, Project(o.events, id));
      SafeBatch(cfg, e, q, items, c.now, id, s);
      SafeCompact(cfg, o.engine, survivors, id, s');
      HoldingBatch(cfg, e, q, items, c.now, DueBy(c.now + Q.HORIZON));
      HoldingCompact(cfg, o.engine, survivors, DueBy(c.now + Q.HORIZON));
    case AckOp(_, _) =>
      s' := SafeAck(cfg, home, e, c, id, s);
    case AckBatchOp(q, acks, survivors) =>
      var o := AckItems(cfg, e, q, acks);
      AcksSound(cfg, home, e, q, acks, c.now, id, s);
      CompactSound(cfg, home, e, o, survivors, c.now, id, s);
      s' := FireAll(s, Project(o.events, id));
      SafeAcks(cfg, e, q, acks, c.now, id, s);
      SafeCompact(cfg, o.engine, survivors, id, s');
      HoldingAcks(cfg, e, q, acks, DueBy(c.now + Q.HORIZON));
      HoldingCompact(cfg, o.engine, survivors, DueBy(c.now + Q.HORIZON));
  }

  lemma SafePush(cfg: Config, home: Homes, e: Engine, c: Call, id: Id, s: Status) returns (s': Status)
    requires Inv(cfg, home, e, []) && Has(cfg, home, e, [], id, s) && Safe(e, id, s) && Recent(e, c.now + Q.HORIZON)
    requires c.op.PushOp? && Allowed(cfg, home, e, c) && ShortDelays(c)
    ensures var e' := Step(cfg, e, c).engine;
            Inv(cfg, home, e', []) && Has(cfg, home, e', [], id, s') && Safe(e', id, s')
              && Recent(e', c.now + Q.HORIZON)
  {
    hide Inv, Has, Safe, Holding, Admit;
    var q, item := c.op.queue, c.op.item;
    PushSound(cfg, home, e, q, item, c.now, id, s);
    s' := FireAll(s, Project(Step(cfg, e, c).events, id));
    if Seen(cfg, e, q, item.id) {
      SafeLog(e, PushRecord(q, item, c.now), id, s, c.now + Q.HORIZON);
    } else {
      SafeAdmit(cfg, e, q, item, c.now, id, s);
      HoldingAdmit(cfg, e, q, item, c.now, DueBy(c.now + Q.HORIZON));
    }
  }

  lemma SafeLog(e: Engine, r: WalRecord, id: Id, s: Status, limit: nat)
    requires Safe(e, id, s) && Recent(e, limit) && (r.Push? ==> r.visibleAt <= limit)
    ensures Safe(Log(e, r), id, s) && Recent(Log(e, r), limit)
  {
    OnDiskGrows(e, Log(e, r), [r], id);
  }

  lemma SafeAck(cfg: Config, home: Homes, e: Engine, c: Call, id: Id, s: Status) returns (s': Status)
    requires Inv(cfg, home, e, []) && Has(cfg, home, e, [], id, s) && Safe(e, id, s) && Recent(e, c.now + Q.HORIZON)
    requires c.op.AckOp? && Allowed(cfg, home, e, c)
    ensures var e' := Step(cfg, e, c).engine;
            Inv(cfg, home, e', []) && Has(cfg, home, e', [], id, s') && Safe(e', id, s')
              && Recent(e', c.now + Q.HORIZON)
  {
    hide Inv, Has, Safe, Holding, Settle, CanAck;
    var q, a := c.op.queue, c.op.ack;
    s' := s;
    if CanAck(cfg, e, q, a) {
      var o := Settle(cfg, e, q, a);
      SettleSound(cfg, home, e, q, a, c.now, id, s);
      s' := FireAll(s, Project(o.events, id));
      SafeSettle(cfg, e, q, a, c.now, id, s);
      HoldingSettle(cfg, e, q, a, DueBy(c.now + Q.HORIZON));
    }
  }

  lemma RecentLater(e: Engine, limit: nat, limit': nat)
    requires Recent(e, limit) && limit <= limit'
    ensures Recent(e, limit')
  {
  }

  lemma RecentNew()
    ensures Recent(NewEngine(), Q.HORIZON)
  {
  }

  lemma {:induction false} RunSafe(cfg: Config, home: Homes, calls: seq<Call>, id: Id) returns (s: Status)
    requires AllowedRun(cfg, home, calls) && MonotoneClock(calls)
    requires forall k :: 0 <= k < |calls| ==> ShortDelays(calls[k])
    ensures var e := Run(cfg, calls).engine;
            Inv(cfg, home, e, []) && Has(cfg, home, e, [], id, s) && Safe(e, id, s)
              && Recent(e, LastTime(calls) + Q.HORIZON)
  {
    hide Inv, Has, Safe, Holding, Step, Allowed, ShortDelays;
    if |calls| == 0 {
      NewInv(cfg, home);
      RecentNew();
      s := Unseen;
      UnseenSafe(NewEngine(), id);
    } else {
      var front, c := calls[..|calls| - 1], calls[|calls| - 1];
      s := RunSafe(cfg, home, front, id);
      RecentLater(Run(cfg, front).engine, LastTime(front) + Q.HORIZON, c.now + Q.HORIZON);
      s := SafeStep(cfg, home, Run(cfg, front).engine, c, id, s);
    }
  }

  lemma UnseenSafe(e: Engine, id: Id)
    ensures Safe(e, id, Unseen)
  {
  }

  lemma ColdOnly(cfg: Config, home: Homes, e: Engine, id: Id, s: Status)
    requires Has(cfg, home, e, [], id, s) && Has(cfg, home, e, [], id, Cold)
    ensures s == Cold
  {
    HasHot(cfg, home, e, id, s);
  }

  ghost predicate HotSomewhere(e: Engine, id: Id) {
    exists i :: 0 <= i < NUM_SHARDS && id in e.shards[i].messages
  }

  ghost predicate HasAck(events: seq<Event>, id: Id) {
    exists k :: 0 <= k < |events| && events[k].Acked? && events[k].id == id
  }

  /** With a clock that does not step back and no delay above 300 s, every message whose push was
      accepted and that was not acknowledged is in RAM or has its Push record ahead of the page-in
      position, after every run. */
  lemma NoLoss(cfg: Config, home: Homes, calls: seq<Call>, k: nat)
    requires AllowedRun(cfg, home, calls) && MonotoneClock(calls)
    requires forall k :: 0 <= k < |calls| ==> ShortDelays(calls[k])
    requires k < |RunEvents(cfg, calls)| && RunEvents(cfg, calls)[k].Stored?
    ensures var e, id := Run(cfg, calls).engine, RunEvents(cfg, calls)[k].id;
            HotSomewhere(e, id) || OnDisk(e, id) || HasAck(RunEvents(cfg, calls), id)
  {
    hide AllowedRun, Run, OnDisk, BookOf;
    var e, events := Run(cfg, calls).engine, RunEvents(cfg, calls);
    var id := events[k].id;
    var s := RunLives(cfg, home, calls, id, false);
    var s' := RunSafe(cfg, home, calls, id);
    var p := Standing(events, id, k);
    NotReturning(cfg, home, e, id, s);
    match s
    case Cold => ColdOnly(cfg, home, e, id, s');
    case Gone =>
      assert Project(events, id)[|Project(events, id)| - 1].Acked?;
      AckedIn(events, id);
    case InQueue(q, _) => assert id in e.shards[ShardIdx(cfg, q)].messages;
    case OnLease(q, _, _, _) => assert id in e.shards[ShardIdx(cfg, q)].messages;
    case _ =>
  }

  lemma {:induction false} AckedIn(events: seq<Event>, id: Id)
    requires exists k :: 0 <= k < |Project(events, id)| && Project(events, id)[k].Acked?
    ensures HasAck(events, id)
  {
    var front, last := events[..|events| - 1], events[|events| - 1];
    if last.id == id && last.Acked? {
      assert events[|events| - 1].Acked?;
    } else {
      var k :| 0 <= k < |Project(events, id)| && Project(events, id)[k].Acked?;
      assert Project(front, id)[k].Acked?;
      AckedIn(front, id);
      var j :| 0 <= j < |front| && front[j].Acked? && front[j].id == id;
      assert events[j].Acked? && events[j].id == id;
    }
  }
}
