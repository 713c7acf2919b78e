/** The queue engine as an object: every method updates the fields in place as the code does and is
    proved to perform the step that `EngineSpec` describes. */
module QueueEngines {
  import opened Basics
  import opened WalCodec
  import opened EngineSpec
  import opened EngineSteps
  import opened ShardInv
  import EngineOpen
  import Q = Queues
  import W = Wheels

  /** What a poll returns for each message. */
  datatype Polled = Polled(id: Id, payload: Bytes, receipt: Receipt, count: nat)

  /** `polled` reports the hand-outs `events`, with the payloads of the messages. */
  ghost predicate Answers(polled: seq<Polled>, events: seq<Event>, messages: map<Id, Msg>) {
    && |polled| == |events|
    && forall k :: 0 <= k < |polled| ==>
         && events[k].Delivered? && events[k].id == polled[k].id && events[k].count == polled[k].count
         && events[k].receipt == polled[k].receipt
         && polled[k].id in messages && messages[polled[k].id].payload == polled[k].payload
  }

  /** The receipts handed out are those the wheel will accept. */
  ghost predicate Acceptable(polled: seq<Polled>, w: W.Wheel) {
    forall k :: 0 <= k < |polled| ==> W.Valid(w, polled[k].id, polled[k].receipt)
  }

  class QueueEngine {
    const cfg: Config
    var shards: seq<Shard>
    var disk: seq<WalRecord>
    var spill: nat
    var total: int

    ghost predicate Valid()
      reads this
    {
      |shards| == NUM_SHARDS && spill <= |disk|
    }

    function State(): Engine
      requires Valid()
      reads this
    {
      EngineState(shards, disk, spill, total)
    }

    /** An engine on an empty log. */
    constructor (cfg: Config)
      ensures Valid() && this.cfg == cfg && State() == NewEngine()
    {
      this.cfg := cfg;
      shards, disk, spill, total := seq(NUM_SHARDS, _ => NewShard()), [], 0, 0;
    }

    /** Restart: replays the recovered records into RAM. The active segment is `active`. */
    constructor Open(cfg: Config, recovered: seq<WalRecord>, active: seq<WalRecord>, now: nat)
      ensures Valid() && this.cfg == cfg && spill == 0 && disk == active
      ensures State() == EngineOpen.Recover(cfg, recovered, now).(disk := active, spill := 0)
    {
      this.cfg := cfg;
      shards, disk, spill, total := seq(NUM_SHARDS, _ => NewShard()), active, 0, 0;
      new;
      for k := 0 to |recovered|
        invariant Valid() && spill == 0 && disk == active
        invariant State() == EngineOpen.Recover(cfg, recovered[..k], now).(disk := active, spill := 0)
      {
        PrefixStep(recovered, k);
        RecoverOne(recovered[k], now, EngineOpen.Recover(cfg, recovered[..k], now));
      }
      assert recovered[..|recovered|] == recovered;
    }

    method RecoverOne(r: WalRecord, now: nat, ghost e: Engine)
      requires Valid() && spill == 0 && State() == e.(disk := disk, spill := 0)
      modifies this
      ensures Valid() && spill == 0 && disk == old(disk)
      ensures State() == EngineOpen.Recover1(cfg, e, r, now).(disk := disk, spill := 0)
    {
      var i := ShardIdx(cfg, r.queue);
      match r
      case Push(id, queue, visibleAt, payload) =>
        var sh := Noted(shards[i], id);
        if total < cfg.cap {
          shards := shards[i := Enqueue(sh, id, Msg(queue, payload, visibleAt, 0), now)];
          total := total + 1;
        } else {
          shards := shards[i := sh];
        }
      case Ack(id, queue) =>
        var sh := shards[i];
        var known := id in sh.messages;
        shards := shards[i := Tombstone(sh.(acked := sh.acked + {id}, messages := sh.messages - {id}), queue, id)];
        if known {
          total := if total > 0 then total - 1 else 0;
        }
    }

    // -------------------------------------------------------------- compaction

    /** Lists the hot messages of all shards. */
    method Surviving() returns (surviving: seq<WalRecord>)
      requires Valid()
      ensures IsSurvivorList(State(), surviving) && |surviving| == HotCount(shards)
    {
      hide HotCount, SurvivesOne, SurvivesBelow;
      surviving := [];
      SurvivesNone(shards);
      for i := 0 to NUM_SHARDS
        invariant forall r :: r in surviving <==> SurvivesBelow(shards, i, r)
        invariant |surviving| == HotCount(shards[..i])
      {
        var more := SurvivingIn(shards[i]);
        SurvivesNext(shards, i);
        surviving := surviving + more;
      }
      assert shards[..NUM_SHARDS] == shards;
      SurvivesAll(State());
    }

    method CheckAndTriggerCompaction() returns (ghost survivors: seq<WalRecord>)
      requires Valid()
      modifies this
      ensures Valid() && (ShouldCompact(cfg, old(State())) ==> IsSurvivorList(old(State()), survivors))
      ensures State() == MaybeCompact(cfg, old(State()), survivors)
    {
      survivors := [];
      if ShouldCompact(cfg, State()) {
        var surviving := Surviving();
        disk, spill := surviving, 0;
        survivors := surviving;
      }
    }

    // -------------------------------------------------------------- push

    /** Stores a message that was not seen before; `room` says whether it may go to RAM. */
    method Store(queue: string, item: Item, now: nat, room: bool) returns (added: bool)
      requires Valid()
      modifies this`shards
      ensures Valid() && added == (item.delay <= Q.HORIZON && room
              && item.id !in old(ShardFor(cfg, State(), queue)).messages)
      ensures var i := ShardIdx(cfg, queue);
              var sh := Noted(old(shards)[i], item.id);
              shards == old(shards)[i := if added then Enqueue(sh, item.id, MsgOf(queue, item, now), now) else sh]
    {
      var i := ShardIdx(cfg, queue);
      var sh := Noted(shards[i], item.id);
      var visibleAt := now + item.delay;
      added := false;
      if visibleAt <= now + Q.HORIZON && room && item.id !in sh.messages {
        sh := Enqueue(sh, item.id, Msg(queue, item.payload, visibleAt, 0), now);
        added := true;
      }
      shards := shards[i := sh];
    }

    /** The record just logged is unread, so the closing check never compacts. */
    method PushWithUlid(queue: string, item: Item, now: nat) returns (id: Id)
      requires Valid()
      modifies this
      ensures Valid() && id == item.id
      ensures State() == PushOne(cfg, old(State()), queue, item, now).engine
    {
      id := item.id;
      disk := disk + [PushRecord(queue, item, now)];
      ghost var e := State();
      if item.id in shards[ShardIdx(cfg, queue)].seen {
        return;
      }
      var added := Store(queue, item, now, total < cfg.cap);
      if added {
        total := total + 1;
      }
      assert State() == Admit(cfg, e, queue, item, now).engine;
      ghost var survivors := CheckAndTriggerCompaction();
    }

    method PushMany(queue: string, items: seq<Item>, now: nat) returns (ids: seq<Id>, ghost survivors: seq<WalRecord>)
      requires Valid()
      modifies this
      ensures Valid() && |ids| == |items| && forall k :: 0 <= k < |items| ==> ids[k] == items[k].id
      ensures State() == PushBatch(cfg, old(State()), queue, items, now, survivors).engine
      ensures var e := BatchItems(cfg, old(State()), queue, items, now).engine;
              ShouldCompact(cfg, e) ==> IsSurvivorList(e, survivors)
    {
      hide Admit, Enqueue, ShouldCompact, IsSurvivorList, MaybeCompact;
      ids := [];
      var added, curRam := 0, total;
      ghost var start := State();
      for k := 0 to |items|
        invariant Valid() && |ids| == k && forall j :: 0 <= j < k ==> ids[j] == items[j].id
        invariant curRam == total + added && total == start.total
        invariant State().(total := curRam) == BatchItems(cfg, start, queue, items[..k], now).engine
      {
        PrefixStep(items, k);
        ids := ids + [items[k].id];
        ghost var e := State().(total := curRam);
        assert BatchItems(cfg, start, queue, items[..k + 1], now).engine
          == BatchItem(cfg, e, queue, items[k], now).engine;
        if items[k].id !in shards[ShardIdx(cfg, queue)].seen {
          disk := disk + [PushRecord(queue, items[k], now)];
          AdmitShape(cfg, e, queue, items[k], now);
          var one := Store(queue, items[k], now, curRam < cfg.cap);
          if one {
            added, curRam := added + 1, curRam + 1;
          }
        }
      }
      assert items[..|items|] == items;
      total := total + added;
      survivors := CheckAndTriggerCompaction();
    }

    // -------------------------------------------------------------- paging in

    method GroupByShard(records: seq<WalRecord>) returns (groups: seq<seq<WalRecord>>)
      ensures |groups| == NUM_SHARDS
      ensures forall i :: 0 <= i < NUM_SHARDS ==> groups[i] == RecordsOfShard(cfg, records, i)
    {
      groups := seq(NUM_SHARDS, _ => []);
      for k := 0 to |records|
        invariant |groups| == NUM_SHARDS
        invariant forall i :: 0 <= i < NUM_SHARDS ==> groups[i] == RecordsOfShard(cfg, records[..k], i)
      {
        PrefixStep(records, k);
        var s := ShardIdx(cfg, records[k].queue);
        groups := groups[s := groups[s] + [records[k]]];
      }
      assert records[..|records|] == records;
    }

    /** Applies one record of the log; `added` when it brought a message in. */
    method ApplyRecord(r: WalRecord, now: nat) returns (added: bool)
      requires Valid()
      modifies this
      ensures Valid() && added == PagedIn(cfg, old(State()), r, now)
      ensures State().(total := total + if added then 1 else 0) == PageRecord(cfg, old(State()), r, now)
    {
      var i := ShardIdx(cfg, r.queue);
      var sh := shards[i];
      added := false;
      match r
      case Push(id, queue, visibleAt, payload) =>
        if visibleAt <= now + Q.HORIZON && id !in sh.messages && id !in sh.acked {
          shards := shards[i := Enqueue(Noted(sh, id), id, Msg(queue, payload, visibleAt, 0), now)];
          added := true;
        }
      case Ack(id, queue) =>
        var known := id in sh.messages;
        shards := shards[i := Tombstone(sh.(acked := sh.acked + {id}, messages := sh.messages - {id}), queue, id)];
        if known {
          total := total - 1;
        }
    }

    /** Applies the records of one shard after those in `done`. */
    method ApplyGroup(group: seq<WalRecord>, target: string, now: nat, added: nat, targetAdded: nat,
                      ghost start: Engine, ghost done: seq<WalRecord>)
      returns (added': nat, targetAdded': nat)
      requires Valid() && State().(total := total + added) == PageRecords(cfg, start, done, now)
      requires targetAdded == TargetAdded(cfg, start, done, now, target)
      modifies this
      ensures Valid() && State().(total := total + added') == PageRecords(cfg, start, done + group, now)
      ensures targetAdded' == TargetAdded(cfg, start, done + group, now, target)
    {
      hide PageRecord, PageRecords, TargetAdded, PagedIn;
      added', targetAdded' := added, targetAdded;
      EmptyRight(done);
      for k := 0 to |group|
        invariant Valid() && State().(total := total + added') == PageRecords(cfg, start, done + group[..k], now)
        invariant targetAdded' == TargetAdded(cfg, start, done + group[..k], now, target)
      {
        var r := group[k];
        PrefixStep(group, k);
        Assoc(done, group[..k], [r]);
        ApplyNext(cfg, start, done + group[..k], r, now, target, State(), added');
        var one := ApplyRecord(r, now);
        if one {
          added' := added' + 1;
          if r.queue == target {
            targetAdded' := targetAdded' + 1;
          }
        }
      }
      assert group[..|group|] == group;
    }

    /** Applies the records of one read, shard by shard; counts those of the target queue. */
    method ApplyRecords(records: seq<WalRecord>, target: string, now: nat) returns (targetAdded: nat)
      requires Valid()
      modifies this
      ensures Valid() && disk == old(disk) && spill == old(spill)
      ensures State() == PageRecords(cfg, old(State()), Grouped(cfg, records, NUM_SHARDS), now)
      ensures targetAdded == TargetAdded(cfg, old(State()), Grouped(cfg, records, NUM_SHARDS), now, target)
    {
      hide PageRecord, RecordsOfShard;
      var groups := GroupByShard(records);
      var added := 0;
      targetAdded := 0;
      ghost var start := State();
      for i := 0 to NUM_SHARDS
        invariant Valid() && State().(total := total + added) == PageRecords(cfg, start, Grouped(cfg, records, i), now)
        invariant targetAdded == TargetAdded(cfg, start, Grouped(cfg, records, i), now, target)
      {
        added, targetAdded := ApplyGroup(groups[i], target, now, added, targetAdded, start, Grouped(cfg, records, i));
      }
      total := total + added;
    }

    method PageInColdSpill(target: string, now: nat, needed: nat)
      requires Valid()
      modifies this
      ensures Valid() && State() == PageIn(cfg, old(State()), target, now, Max(needed, 1000), false)
    {
      hide PageRecords, Grouped, TargetAdded, HasPush, ChunkLen;
      var limit, flushed, going := Max(needed, 1000), false, true;
      ghost var goal := PageIn(cfg, State(), target, now, limit, false);
      while going
        invariant Valid()
        invariant if going then PageIn(cfg, State(), target, now, limit, flushed) == goal else State() == goal
        decreases going, |disk| - spill, !flushed
      {
        ghost var p := PageStep(cfg, State(), target, now, limit, flushed);
        var n := ChunkLen(State(), limit);
        if 0 < n {
          var records := disk[spill..spill + n];
          spill := spill + n;
          if HasPush(records) {
            var targetAdded := ApplyRecords(records, target, now);
            going := !(0 < targetAdded || cfg.cap <= total);
          }
        } else if !flushed {
          flushed := true;
        } else {
          spill := 0;
          going := false;
        }
        assert p == if going then Continue(State(), flushed) else Stop(State());
      }
    }

    // -------------------------------------------------------------- poll

    /** Phase 1: takes the messages of expired leases out of the shard. */
    method TakeExpired(i: nat, now: nat) returns (expired: seq<Limbo>)
      requires Valid() && i < NUM_SHARDS
      modifies this`shards
      ensures Valid() && Taken(shards[i], expired) == Expire(old(shards)[i], now)
              && shards == old(shards)[i := shards[i]]
    {
      var c := W.Collect(shards[i].wheel, now);
      var sh := shards[i].(wheel := c.wheel);
      ghost var start := sh;
      expired := [];
      for k := 0 to |c.expired|
        invariant shards == old(shards) && Taken(sh, expired) == TakeMessages(start, c.expired[..k])
      {
        PrefixStep(c.expired, k);
        var id := c.expired[k].id;
        if id in sh.messages {
          expired := expired + [Limbo(id, sh.messages[id])];
          sh := sh.(messages := sh.messages - {id});
        }
      }
      assert c.expired[..|c.expired|] == c.expired;
      shards := shards[i := sh];
    }

    /** Phase 2: sends one message back to its queue or to the dead-letter queue. */
    method RouteOne(x: Limbo, now: nat)
      requires Valid()
      modifies this`shards
      ensures Valid() && State() == Route(cfg, old(State()), x, now)
    {
      if cfg.maxDelivery <= x.msg.delivery {
        var from := ShardIdx(cfg, x.msg.queue);
        shards := shards[from := Tombstone(MarkAcked(shards[from], x.id), x.msg.queue, x.id)];
        var msg := x.msg.(queue := DeadLetter(x.msg.queue), visibleAt := now);
        var to := ShardIdx(cfg, msg.queue);
        shards := shards[to := Enqueue(Noted(shards[to], x.id), x.id, msg, now)];
      } else {
        var to := ShardIdx(cfg, x.msg.queue);
        shards := shards[to := Enqueue(shards[to], x.id, x.msg.(visibleAt := now), now)];
      }
    }

    method ReturnExpired(queue: string, now: nat)
      requires Valid()
      modifies this`shards
      ensures Valid() && State() == Returned(cfg, old(State()), queue, now)
    {
      hide Route, Expire;
      var expired := TakeExpired(ShardIdx(cfg, queue), now);
      ghost var start := State();
      for k := 0 to |expired|
        invariant Valid() && State() == RouteAll(cfg, start, expired[..k], now)
      {
        PrefixStep(expired, k);
        RouteOne(expired[k], now);
      }
      assert expired[..|expired|] == expired;
    }

    /** Phase 4: leases the claimed messages that are still there. */
    method LeaseClaimed(i: nat, ids: seq<Id>, l: Lease, receipts: nat -> Receipt) returns (polled: seq<Polled>)
      requires Valid() && i < NUM_SHARDS
      modifies this`shards
      ensures Valid() && shards == old(shards)[i := LeaseAll(old(shards)[i], ids, l, receipts).shard]
      ensures Answers(polled, LeaseAll(old(shards)[i], ids, l, receipts).events, shards[i].messages)
      ensures NoDup(ids) ==> Acceptable(polled, shards[i].wheel)
    {
      hide Acceptable, Answers, W.Insert, LeaseAll;
      NothingPolled(shards[i]);
      LeaseNone(shards[i], l, receipts);
      polled := [];
      var sh := shards[i];
      ghost var start := sh;
      for k := 0 to |ids|
        invariant shards == old(shards) && sh == LeaseAll(start, ids[..k], l, receipts).shard
        invariant Answers(polled, LeaseAll(start, ids[..k], l, receipts).events, sh.messages)
        invariant NoDup(ids) ==> Acceptable(polled, sh.wheel)
        invariant forall j :: 0 <= j < |polled| ==> polled[j].id in ids[..k]
      {
        LeaseNext(start, ids, k, l, receipts);
        var id := ids[k];
        if id in sh.messages {
          var msg := sh.messages[id].(delivery := sh.messages[id].delivery + 1);
          var item := W.Item(id, l.queue, receipts(k), l.until);
          AcceptsMore(polled, sh.wheel, item, Polled(id, msg.payload, receipts(k), msg.delivery));
          AnswersMore(polled, LeaseAll(start, ids[..k], l, receipts).events, sh.messages, id, l, receipts(k));
          assert NoDup(ids) ==> forall j :: 0 <= j < |polled| ==> polled[j].id != id;
          sh := sh.(messages := sh.messages[id := msg], wheel := W.Insert(sh.wheel, item));
          polled := polled + [Polled(id, msg.payload, receipts(k), msg.delivery)];
        }
      }
      assert ids[..|ids|] == ids;
      shards := shards[i := sh];
    }

    method Poll(queue: string, visibility: nat, max: nat, now: nat, receipts: nat -> Receipt)
      returns (polled: seq<Polled>, ghost secs: seq<nat>)
      requires Valid()
      modifies this
      ensures Valid()
      ensures var qs := ShardFor(cfg, ReadyToClaim(cfg, old(State()), queue, now, max), queue).queues;
              queue in qs ==> Q.IsDrainOrder(qs[queue], now, secs)
      ensures var o := EngineSpec.Poll(cfg, old(State()), queue, now, visibility, max, secs, receipts);
              State() == o.engine && Answers(polled, o.events, ShardFor(cfg, State(), queue).messages)
      ensures OnePlace(ShardFor(cfg, ReadyToClaim(cfg, old(State()), queue, now, max), queue), {}) ==>
              Acceptable(polled, ShardFor(cfg, State(), queue).wheel)
    {
      hide Returned, PageIn, LeaseAll, Claim, Q.IsDrainOrder, NeedsPageIn, OnePlace, NoDup;
      ReturnExpired(queue, now);
      if NeedsPageIn(cfg, State(), queue, max) {
        PageInColdSpill(queue, now, Prefetch(max));
      }
      assert State() == ReadyToClaim(cfg, old(State()), queue, now, max);
      var i := ShardIdx(cfg, queue);
      var l := Lease(queue, now, now + Timeout(cfg, visibility));
      secs := [];
      polled := [];
      if queue in shards[i].queues {
        var order := DrainOrder(shards[i].queues[queue], now);
        secs := order;
        ClaimsDistinct(shards[i], queue, now, order, max);
        var q, ids := ClaimReady(Q.Drain(shards[i].queues[queue], now, order), max);
        shards := shards[i := shards[i].(queues := shards[i].queues[queue := q])];
        polled := LeaseClaimed(i, ids, l, receipts);
      }
    }

    // -------------------------------------------------------------- acknowledging

    method SettleOne(queue: string, a: Receipted) returns (hot: bool)
      requires Valid() && CanAck(cfg, State(), queue, a)
      modifies this
      ensures Valid() && total == old(total) && hot == (a.id in old(ShardFor(cfg, State(), queue)).messages)
      ensures State().(total := total - if hot then 1 else 0) == Settle(cfg, old(State()), queue, a).engine
    {
      var i := ShardIdx(cfg, queue);
      var sh := shards[i];
      hot := a.id in sh.messages;
      sh := sh.(wheel := W.RemoveIfValid(sh.wheel, a.id, a.receipt), acked := sh.acked + {a.id});
      if hot {
        sh := Tombstone(sh.(messages := sh.messages - {a.id}), queue, a.id);
      } else {
        assert sh.messages - {a.id} == sh.messages;
      }
      shards := shards[i := sh];
      disk := disk + [WalRecord.Ack(a.id, queue)];
    }

    /** The record just logged is unread, so the closing check never compacts. */
    method Ack(queue: string, a: Receipted) returns (ok: bool)
      requires Valid()
      modifies this
      ensures Valid() && ok == CanAck(cfg, old(State()), queue, a)
      ensures State() == AckOne(cfg, old(State()), queue, a).engine
    {
      hide Settle, IsSurvivorList;
      ok := W.Valid(shards[ShardIdx(cfg, queue)].wheel, a.id, a.receipt);
      if ok {
        var hot := SettleOne(queue, a);
        if hot {
          total := total - 1;
        }
        SettleUnread(cfg, old(State()), queue, a);
        ghost var survivors := CheckAndTriggerCompaction();
      }
    }

    /** Number of messages the acknowledgements removed. */
    method AckMany(queue: string, items: seq<Receipted>) returns (count: nat, ghost survivors: seq<WalRecord>)
      requires Valid()
      modifies this
      ensures Valid() && count == old(total) - AckItems(cfg, old(State()), queue, items).engine.total
      ensures State() == AckBatch(cfg, old(State()), queue, items, survivors).engine
      ensures var e := AckItems(cfg, old(State()), queue, items).engine;
              ShouldCompact(cfg, e) ==> IsSurvivorList(e, survivors)
    {
      hide Settle, IsSurvivorList, MaybeCompact, ShouldCompact;
      count := 0;
      ghost var start := State();
      for k := 0 to |items|
        invariant Valid() && total == start.total
        invariant State().(total := total - count) == AckItems(cfg, start, queue, items[..k]).engine
      {
        PrefixStep(items, k);
        ghost var e, t := State(), count;
        assert AckItems(cfg, start, queue, items[..k + 1]).engine
          == AckOne(cfg, e.(total := e.total - count), queue, items[k]).engine;
        if W.Valid(shards[ShardIdx(cfg, queue)].wheel, items[k].id, items[k].receipt) {
          SettleTotal(cfg, e, t, queue, items[k]);
          var hot := SettleOne(queue, items[k]);
          if hot {
            count := count + 1;
          }
        }
      }
      assert items[..|items|] == items;
      total := total - count;
      survivors := CheckAndTriggerCompaction();
    }
  }

  ghost predicate SurvivesOne(sh: Shard, r: WalRecord) {
    r.id in sh.messages && r == RecordOf(r.id, sh.messages[r.id])
  }

  ghost predicate SurvivesBelow(shards: seq<Shard>, n: nat, r: WalRecord)
    requires n <= |shards|
  {
    exists i :: 0 <= i < n && SurvivesOne(shards[i], r)
  }

  lemma SurvivesNone(shards: seq<Shard>)
    ensures HotCount(shards[..0]) == 0 && forall r :: !SurvivesBelow(shards, 0, r)
  {
  }

  lemma SurvivesNext(shards: seq<Shard>, i: nat)
    requires i < |shards|
    ensures HotCount(shards[..i + 1]) == HotCount(shards[..i]) + |shards[i].messages|
    ensures forall r :: SurvivesBelow(shards, i + 1, r) <==> SurvivesBelow(shards, i, r) || SurvivesOne(shards[i], r)
  {
    hide SurvivesOne;
    PrefixStep(shards, i);
  }

  lemma SurvivesAll(e: Engine)
    ensures forall r :: SurvivesBelow(e.shards, NUM_SHARDS, r) <==> SurvivesIn(e, r)
  {
    forall r
      ensures SurvivesBelow(e.shards, NUM_SHARDS, r) <==> SurvivesIn(e, r)
    {
      if SurvivesIn(e, r) {
        var i :| 0 <= i < NUM_SHARDS && r.id in e.shards[i].messages && r == RecordOf(r.id, e.shards[i].messages[r.id]);
        assert SurvivesOne(e.shards[i], r);
      }
    }
  }

  /** The messages of one shard, in whatever order its hash map yields them. */
  method SurvivingIn(sh: Shard) returns (surviving: seq<WalRecord>)
    ensures |surviving| == |sh.messages| && forall r :: r in surviving <==> SurvivesOne(sh, r)
  {
    surviving := [];
    var ids := sh.messages.Keys;
    while ids != {}
      invariant ids <= sh.messages.Keys && |surviving| + |ids| == |sh.messages|
      invariant forall r :: r in surviving <==> SurvivesOne(sh, r) && r.id !in ids
      decreases ids
    {
      var id :| id in ids;
      surviving := surviving + [RecordOf(id, sh.messages[id])];
      ids := ids - {id};
    }
  }

  /** The due buckets, in whatever order the hash map yields them. */
  method DrainOrder(q: Q.Queue, now: nat) returns (secs: seq<nat>)
    ensures Q.IsDrainOrder(q, now, secs)
  {
    secs := [];
    var due := Q.DueSecs(q, now);
    ghost var all := due;
    while due != {}
      invariant NoDup(secs) && Elems(secs) !! due && Elems(secs) + due == all
      decreases due
    {
      var sec :| sec in due;
      assert sec !in Elems(secs);
      assert Elems(secs + [sec]) == Elems(secs) + {sec};
      secs := secs + [sec];
      due := due - {sec};
    }
  }

  /** Pops at most `max` ready messages. */
  method ClaimReady(start: Q.Queue, max: nat) returns (q: Q.Queue, ids: seq<Id>)
    ensures Claimed(q, ids) == Claim(start, max)
  {
    hide Q.PopReady;
    q, ids := start, [];
    var going := true;
    while going && |ids| < max
      invariant |ids| <= max
      invariant var rest := if going then Claim(q, max - |ids|) else Claimed(q, []);
                Claim(start, max) == Claimed(rest.queue, ids + rest.ids)
      decreases going, max - |ids|
    {
      var p := Q.PopReady(q);
      ClaimStep(q, max - |ids|, ids);
      q := p.queue;
      match p.id
      case Some(id) => ids := ids + [id];
      case None => going := false;
    }
    EmptyRight(ids);
  }

  lemma ClaimsDistinct(sh: Shard, queue: string, now: nat, secs: seq<nat>, max: nat)
    requires queue in sh.queues && Q.IsDrainOrder(sh.queues[queue], now, secs)
    ensures OnePlace(sh, {}) ==> NoDup(Claim(Q.Drain(sh.queues[queue], now, secs), max).ids)
  {
    hide OnePlace;
    if OnePlace(sh, {}) {
      DrainOnePlace(sh, queue, now, secs);
      ClaimOnePlace(sh.(queues := sh.queues[queue := Q.Drain(sh.queues[queue], now, secs)]), {}, queue, max);
    }
  }

  lemma LeaseNone(sh: Shard, l: Lease, receipts: nat -> Receipt)
    ensures LeaseAll(sh, [], l, receipts) == Leased(sh, [])
  {
  }

  lemma LeaseNext(sh: Shard, ids: seq<Id>, k: nat, l: Lease, receipts: nat -> Receipt)
    requires k < |ids|
    ensures ids[..k + 1] == ids[..k] + [ids[k]]
    ensures var before := LeaseAll(sh, ids[..k], l, receipts);
            var one := LeaseOne(before.shard, ids[k], l, receipts(k));
            LeaseAll(sh, ids[..k + 1], l, receipts)
            == Leased(one.shard, if ids[k] in before.shard.messages then before.events + one.events else before.events)
  {
    PrefixStep(ids, k);
    EmptyRight(LeaseAll(sh, ids[..k], l, receipts).events);
  }

  lemma NothingPolled(sh: Shard)
    ensures Answers([], [], sh.messages) && Acceptable([], sh.wheel)
  {
  }

  lemma AcceptsMore(polled: seq<Polled>, w: W.Wheel, item: W.Item, p: Polled)
    requires p.id == item.id && p.receipt == item.receipt
    ensures Acceptable(polled, w) && (forall j :: 0 <= j < |polled| ==> polled[j].id != item.id)
            ==> Acceptable(polled + [p], W.Insert(w, item))
  {
  }

  lemma AnswersMore(polled: seq<Polled>, events: seq<Event>, messages: map<Id, Msg>, id: Id, l: Lease, receipt: Receipt)
    requires Answers(polled, events, messages) && id in messages
    ensures var msg := messages[id].(delivery := messages[id].delivery + 1);
            Answers(polled + [Polled(id, msg.payload, receipt, msg.delivery)],
                    events + [Delivered(l.queue, id, msg.delivery, l.now, l.until, receipt)], messages[id := msg])
  {
  }

  lemma ClaimStep(q: Q.Queue, max: nat, ids: seq<Id>)
    requires 0 < max
    ensures var p := Q.PopReady(q);
            match p.id
            case None => Claim(q, max) == Claimed(p.queue, [])
            case Some(id) =>
              var rest := Claim(p.queue, max - 1);
              Claim(q, max).queue == rest.queue && ids + Claim(q, max).ids == (ids + [id]) + rest.ids
  {
    hide Q.PopReady;
    var p := Q.PopReady(q);
    if p.id.Some? {
      Assoc(ids, [p.id.value], Claim(p.queue, max - 1).ids);
    }
  }

  /** What a record of the log does, does not depend on the counter. */
  lemma PageTotal(cfg: Config, e: Engine, t: nat, r: WalRecord, now: nat)
    ensures PageRecord(cfg, e.(total := e.total + t), r, now)
            == PageRecord(cfg, e, r, now).(total := PageRecord(cfg, e, r, now).total + t)
  {
  }

  /** One more record, applied to an engine whose counter lags by `added`. */
  lemma ApplyNext(cfg: Config, start: Engine, done: seq<WalRecord>, r: WalRecord, now: nat, target: string,
                  e: Engine, added: nat)
    requires e.(total := e.total + added) == PageRecords(cfg, start, done, now)
    ensures var e' := PageRecord(cfg, e, r, now);
            PageRecords(cfg, start, done + [r], now) == e'.(total := e'.total + added)
    ensures TargetAdded(cfg, start, done + [r], now, target)
            == TargetAdded(cfg, start, done, now, target)
               + if PagedIn(cfg, e, r, now) && r.queue == target then 1 else 0
  {
    hide PageRecord, PagedIn;
    Snoc(done, r);
    PageTotal(cfg, e, added, r, now);
    PageCounts(cfg, e, r, now);
  }

  lemma PageCounts(cfg: Config, e: Engine, r: WalRecord, now: nat)
    ensures r.Push? ==> (PageRecord(cfg, e, r, now).total != e.total <==> PagedIn(cfg, e, r, now))
    ensures PagedIn(cfg, e, r, now) ==> r.Push?
  {
  }

  lemma SettleUnread(cfg: Config, e: Engine, queue: string, a: Receipted)
    ensures var e' := Settle(cfg, e, queue, a).engine; e'.spill < |e'.disk|
  {
  }

  /** Nor does what an acknowledgement does. */
  lemma SettleTotal(cfg: Config, e: Engine, t: nat, queue: string, a: Receipted)
    ensures Settle(cfg, e.(total := e.total - t), queue, a).engine
            == Settle(cfg, e, queue, a).engine.(total := Settle(cfg, e, queue, a).engine.total - t)
  {
  }
}
