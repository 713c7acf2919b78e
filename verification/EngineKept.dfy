/** Exactly which messages a run keeps, whatever their delays and whatever the clock does. */
module EngineKept {
  import opened Basics
  import opened WalCodec
  import opened EngineSpec
  import opened ShardInv
  import opened Books
  import opened EngineSteps
  import opened Lifecycle
  import opened EngineLife
  import opened EngineRuns
  import opened EngineCompaction
  import opened EngineTheorems
  import opened EngineNoLoss
  import Q = Queues

  /** The log holds a Push record of the message. */
  ghost predicate Logged(disk: seq<WalRecord>, id: Id) {
    exists k :: 0 <= k < |disk| && disk[k].Push? && disk[k].id == id
  }

  /** In RAM, or on disk to be paged in. */
  ghost predicate Present(e: Engine, id: Id) {
    HotSomewhere(e, id) || Logged(e.disk, id)
  }

  /** Accepted and not acknowledged, but in no RAM. */
  ghost predicate IsCold(cfg: Config, home: Homes, e: Engine, id: Id) {
    Seen(cfg, e, home(id), id) && id !in ShardFor(cfg, e, home(id)).acked && !HotSomewhere(e, id)
  }

  /** An idle batch at the end of a full segment compacts the log while the message is cold. */
  ghost predicate Drops(cfg: Config, home: Homes, e: Engine, c: Call, id: Id) {
    IdleBatch(cfg, e, c) && ShouldCompact(cfg, e) && IsCold(cfg, home, e, id)
  }

  /** A single push of the id: even a repeated one is logged. */
  predicate Relogs(c: Call, id: Id) {
    c.op.PushOp? && c.op.item.id == id
  }

  /** Some call dropped the message and no single push of it followed. */
  ghost predicate Dropped(cfg: Config, home: Homes, calls: seq<Call>, id: Id) {
    |calls| > 0 &&
    (var front, c := calls[..|calls| - 1], calls[|calls| - 1];
     !Relogs(c, id) && (Drops(cfg, home, Run(cfg, front).engine, c, id) || Dropped(cfg, home, front, id)))
  }

  // ---------------------------------------------------------------- cold and hot

  lemma HotIff(cfg: Config, home: Homes, e: Engine, id: Id)
    requires Inv(cfg, home, e, [])
    ensures Hot(BookOf(cfg, e, []), id) <==> HotSomewhere(e, id)
  {
    hide Inv;
    if HotSomewhere(e, id) {
      var i :| 0 <= i < NUM_SHARDS && id in e.shards[i].messages;
      ShardHot(cfg, home, e, i, id);
    }
    if Hot(BookOf(cfg, e, []), id) {
      var p :| Spot(id, p) in BookOf(cfg, e, []).at;
      assert InRam(cfg, e, Spot(id, p));
      assert id in e.shards[ShardIdx(cfg, p)].messages;
    }
  }

  lemma ColdIff(cfg: Config, home: Homes, e: Engine, id: Id)
    requires Inv(cfg, home, e, [])
    ensures Has(cfg, home, e, [], id, Cold) <==> IsCold(cfg, home, e, id)
  {
    hide Inv, HotSomewhere;
    HotIff(cfg, home, e, id);
  }

  lemma StatusCold(cfg: Config, home: Homes, e: Engine, id: Id, s: Status)
    requires Inv(cfg, home, e, []) && Has(cfg, home, e, [], id, s)
    ensures s.Cold? <==> IsCold(cfg, home, e, id)
  {
    hide Inv, Has, IsCold;
    ColdIff(cfg, home, e, id);
    if IsCold(cfg, home, e, id) {
      ColdOnly(cfg, home, e, id, s);
    }
  }

  lemma StatusHot(cfg: Config, home: Homes, e: Engine, id: Id, s: Status)
    requires Inv(cfg, home, e, []) && Has(cfg, home, e, [], id, s)
    ensures s.InQueue? || s.OnLease? <==> HotSomewhere(e, id)
  {
    hide Inv, HotSomewhere;
    HotIff(cfg, home, e, id);
    HasHot(cfg, home, e, id, s);
    NotReturning(cfg, home, e, id, s);
  }

  /** The state of the engine leaves no choice between the kinds of status. */
  lemma SameKind(cfg: Config, home: Homes, e: Engine, id: Id, s: Status, t: Status)
    requires Inv(cfg, home, e, []) && Has(cfg, home, e, [], id, s) && Has(cfg, home, e, [], id, t)
    ensures (s.Gone? <==> t.Gone?) && (s.Unseen? <==> t.Unseen?)
  {
    hide OnePlace, HotCount, Until, RecordOk, SpotOk;
    HasHot(cfg, home, e, id, s);
    HasHot(cfg, home, e, id, t);
    NotReturning(cfg, home, e, id, s);
    NotReturning(cfg, home, e, id, t);
    var m := At(cfg, home(id), id);
    assert m == Mark(m.shard, id);
  }

  /** Among the accepted messages the acknowledged ones are gone. */
  lemma AckedIff(cfg: Config, home: Homes, calls: seq<Call>, k: nat, s: Status)
    requires AllowedRun(cfg, home, calls) && k < |RunEvents(cfg, calls)| && RunEvents(cfg, calls)[k].Stored?
    requires var e, id := Run(cfg, calls).engine, RunEvents(cfg, calls)[k].id;
             Inv(cfg, home, e, []) && Has(cfg, home, e, [], id, s)
    ensures !s.Unseen? && (HasAck(RunEvents(cfg, calls), RunEvents(cfg, calls)[k].id) <==> s.Gone?)
  {
    hide AllowedRun, Run, Inv, Has, Numbered, Limited, Remembers;
    var e, events := Run(cfg, calls).engine, RunEvents(cfg, calls);
    var id := events[k].id;
    var t := RunLives(cfg, home, calls, id, false);
    SameKind(cfg, home, e, id, s, t);
    var p := Standing(events, id, k);
    var hist := Project(events, id);
    if HasAck(events, id) {
      var j :| 0 <= j < |events| && events[j].Acked? && events[j].id == id;
      var q := Standing(events, id, j);
    }
    if t.Gone? {
      assert hist[|hist| - 1].Acked?;
      AckedIn(events, id);
    }
  }

  // ---------------------------------------------------------------- one call

  ghost predicate NoneStored(events: seq<Event>) {
    forall k :: 0 <= k < |events| ==> !events[k].Stored?
  }

  /** What events can make of a message. */
  lemma {:induction false} Moves(h: string, s: Status, events: seq<Event>, now: nat)
    requires Accepts(h, s, events, now) && NoneStored(events)
    ensures FireAll(s, events) == s || (s.InQueue? && FireAll(s, events).OnLease?)
            || ((s.InQueue? || s.OnLease?) && FireAll(s, events).Gone?)
  {
    if events != [] {
      Moves(h, s, events[..|events| - 1], now);
    }
  }

  lemma {:induction false} ProjectKeeps(events: seq<Event>, id: Id)
    requires NoneStored(events)
    ensures NoneStored(Project(events, id))
  {
    if events != [] {
      ProjectKeeps(events[..|events| - 1], id);
    }
  }

  lemma {:induction false} LeasesStoreNothing(sh: Shard, ids: seq<Id>, l: Lease, receipts: nat -> Receipt)
    ensures NoneStored(LeaseAll(sh, ids, l, receipts).events)
  {
    if ids != [] {
      LeasesStoreNothing(sh, ids[..|ids| - 1], l, receipts);
    }
  }

  lemma {:induction false} AcksStoreNothing(cfg: Config, e: Engine, queue: string, acks: seq<Receipted>)
    ensures NoneStored(AckItems(cfg, e, queue, acks).events)
  {
    if acks != [] {
      AcksStoreNothing(cfg, e, queue, acks[..|acks| - 1]);
    }
  }

  lemma PollStoresNothing(cfg: Config, e: Engine, c: Call)
    requires c.op.PollOp?
    ensures NoneStored(Step(cfg, e, c).events)
  {
    hide ReadyToClaim, Q.Drain, Claim, LeaseAll;
    var l := Lease(c.op.queue, c.now, c.now + Timeout(cfg, c.op.visibility));
    var sh := ShardFor(cfg, ReadyToClaim(cfg, e, l.queue, c.now, c.op.max), l.queue);
    if l.queue in sh.queues {
      var got := Claim(Q.Drain(sh.queues[l.queue], l.now, c.op.secs), c.op.max);
      LeasesStoreNothing(sh.(queues := sh.queues[l.queue := got.queue]), got.ids, l, c.op.receipts);
    }
  }

  lemma LoggedMore(disk: seq<WalRecord>, more: seq<WalRecord>, id: Id)
    ensures Logged(disk + more, id) <==> Logged(disk, id) || Logged(more, id)
  {
    if Logged(disk, id) {
      var k :| 0 <= k < |disk| && disk[k].Push? && disk[k].id == id;
      assert (disk + more)[k] == disk[k];
    }
    if Logged(more, id) {
      var k :| 0 <= k < |more| && more[k].Push? && more[k].id == id;
      assert (disk + more)[|disk| + k] == more[k];
    }
  }

  lemma {:induction false} FreshLogged(cfg: Config, e: Engine, queue: string, items: seq<Item>, now: nat, id: Id)
    ensures Logged(Fresh(cfg, e, queue, items, now), id)
            <==> !Seen(cfg, e, queue, id) && exists k :: 0 <= k < |items| && items[k].id == id
  {
    hide Seen;
    if items != [] {
      var front, item := items[..|items| - 1], items[|items| - 1];
      FreshLogged(cfg, e, queue, front, now, id);
      assert forall k :: 0 <= k < |front| ==> front[k] == items[k];
      LoggedMore(Fresh(cfg, e, queue, front, now), [PushRecord(queue, item, now)], id);
      LoggedOne(PushRecord(queue, item, now), id);
      EmptyRight(Fresh(cfg, e, queue, front, now));
    }
  }

  lemma LoggedOne(r: WalRecord, id: Id)
    ensures Logged([r], id) <==> r.Push? && r.id == id
  {
    assert [r][0] == r;
  }

  lemma {:induction false} AcceptedUnlogged(cfg: Config, e: Engine, queue: string, acks: seq<Receipted>, id: Id)
    ensures !Logged(Accepted(cfg, e, queue, acks), id)
  {
    hide CanAck;
    if acks != [] {
      AcceptedUnlogged(cfg, e, queue, acks[..|acks| - 1], id);
    }
  }

  /** A batch has no events of an id that was seen before or that it does not hold. */
  lemma {:induction false} BatchSilent(cfg: Config, e: Engine, queue: string, items: seq<Item>, now: nat, id: Id)
    requires Seen(cfg, e, queue, id) || forall k :: 0 <= k < |items| ==> items[k].id != id
    ensures Project(BatchItems(cfg, e, queue, items, now).events, id) == []
  {
    hide Seen, Admit;
    if items != [] {
      var front, item := items[..|items| - 1], items[|items| - 1];
      assert forall k :: 0 <= k < |front| ==> front[k] == items[k];
      BatchSilent(cfg, e, queue, front, now, id);
      BatchSeen(cfg, e, queue, front, now, item.id);
      var a := BatchItems(cfg, e, queue, front, now);
      var b := BatchItem(cfg, a.engine, queue, item, now);
      ProjectSplit(a.events, b.events, id);
      AdmitOne(cfg, Log(a.engine, PushRecord(queue, item, now)), queue, item, now);
    }
  }

  lemma AdmitOne(cfg: Config, e: Engine, queue: string, item: Item, now: nat)
    ensures forall id :: id != item.id ==> Project(Admit(cfg, e, queue, item, now).events, id) == []
  {
    forall id | id != item.id
      ensures Project(Admit(cfg, e, queue, item, now).events, id) == []
    {
      ProjectOne(queue, Unseen, Admit(cfg, e, queue, item, now).events[0], id, now);
    }
  }

  /** What is known of a message that stands at `s`, if `dropped` says whether it was dropped. */
  ghost predicate Kept(e: Engine, id: Id, s: Status, dropped: bool) {
    && (dropped ==> s.Cold?)
    && (s.Cold? ==> (Logged(e.disk, id) <==> !dropped))
    && (s.InQueue? || s.OnLease? ==> Logged(e.disk, id))
  }

  lemma SurvivorLogged(cfg: Config, e: Engine, survivors: seq<WalRecord>, id: Id)
    requires IsSurvivorList(e, survivors)
    ensures Logged(survivors, id) <==> HotSomewhere(e, id)
  {
    if HotSomewhere(e, id) {
      var i :| 0 <= i < NUM_SHARDS && id in e.shards[i].messages;
      var r := RecordOf(id, e.shards[i].messages[id]);
      assert SurvivesIn(e, r);
      assert r in survivors;
    }
    if Logged(survivors, id) {
      var k :| 0 <= k < |survivors| && survivors[k].Push? && survivors[k].id == id;
      assert survivors[k] in survivors && SurvivesIn(e, survivors[k]);
    }
  }

  lemma KeptCompact(cfg: Config, home: Homes, e: Engine, c: Call, id: Id, s: Status)
    requires Inv(cfg, home, e, []) && Has(cfg, home, e, [], id, s)
    requires Allowed(cfg, home, e, c) && Compacts(cfg, e, c)
    ensures Kept(Step(cfg, e, c).engine, id, s, s.Cold?)
  {
    hide Inv, Has, Step, Compacts, Allowed, Logged, HotSomewhere;
    CompactsTo(cfg, home, e, c);
    SurvivorLogged(cfg, e, c.op.survivors, id);
    StatusHot(cfg, home, e, id, s);
  }

  /** Polls and acks: nothing is logged but acks. */
  lemma KeptOn(e: Engine, e': Engine, more: seq<WalRecord>, h: string, id: Id, s: Status, s1: Status,
               events: seq<Event>, now: nat, dropped: bool)
    requires Kept(e, id, s, dropped) && e'.disk == e.disk + more && !Logged(more, id)
    requires s1 == s || (!s1.Cold? && (s.OnLease? || Logged(e.disk, id)))
    requires !s1.Returning? && (s.Unseen? ==> s1.Unseen?) && (s.Gone? ==> s1.Gone?)
    requires Accepts(h, s1, Project(events, id), now) && NoneStored(events)
    ensures Kept(e', id, FireAll(s1, Project(events, id)), dropped)
  {
    hide Logged, FireAll, Project;
    LoggedMore(e.disk, more, id);
    ProjectKeeps(events, id);
    Moves(h, s1, Project(events, id), now);
  }

  lemma OfferedLogged(disk: seq<WalRecord>, id: Id, now: nat)
    ensures Offered(disk, id, now) ==> Logged(disk, id)
  {
  }

  lemma KeptPush(cfg: Config, home: Homes, e: Engine, c: Call, id: Id, s: Status, dropped: bool)
    requires Kept(e, id, s, dropped) && c.op.PushOp?
    requires var mine := Project(Step(cfg, e, c).events, id); Accepts(home(id), s, mine, c.now)
    ensures Kept(Step(cfg, e, c).engine, id, FireAll(s, Project(Step(cfg, e, c).events, id)), dropped && !Relogs(c, id))
  {
    hide Logged, FireAll, Accepts, Project, Admit, Seen;
    var r, e1, events := PushRecord(c.op.queue, c.op.item, c.now), Step(cfg, e, c).engine, Step(cfg, e, c).events;
    AdmitShape(cfg, e, c.op.queue, c.op.item, c.now);
    LoggedMore(e.disk, [r], id);
    LoggedOne(r, id);
    NoEvents(home(id), s, c.now);
    if id != c.op.item.id {
      AdmitOne(cfg, Log(e, r), c.op.queue, c.op.item, c.now);
      NoneOf(id);
    }
  }

  lemma KeptBatch(cfg: Config, home: Homes, e: Engine, c: Call, id: Id, s: Status, dropped: bool)
    requires Inv(cfg, home, e, []) && Has(cfg, home, e, [], id, s) && Kept(e, id, s, dropped)
    requires c.op.PushBatchOp? && Allowed(cfg, home, e, c) && !Compacts(cfg, e, c)
    ensures Kept(Step(cfg, e, c).engine, id, FireAll(s, Project(Step(cfg, e, c).events, id)), dropped)
  {
    hide Inv, Has, Logged, FireAll, Project, BatchItems, Seen, Fresh, Lists;
    var q, items := c.op.queue, c.op.items;
    StepLogs(cfg, e, c);
    LoggedMore(e.disk, Fresh(cfg, e, q, items, c.now), id);
    FreshLogged(cfg, e, q, items, c.now, id);
    if Seen(cfg, e, q, id) || forall k :: 0 <= k < |items| ==> items[k].id != id {
      BatchSilent(cfg, e, q, items, c.now, id);
      NoEvents(home(id), s, c.now);
    } else {
      UnseenStatus(cfg, home, e, id, s);
    }
  }

  /** Every call keeps track of the message: only a call that drops it loses it, and only a single push
      of it brings it back. */
  lemma KeptStep(cfg: Config, home: Homes, e: Engine, c: Call, id: Id, s: Status, dropped: bool) returns (s': Status)
    requires Inv(cfg, home, e, []) && Has(cfg, home, e, [], id, s) && Kept(e, id, s, dropped)
    requires Allowed(cfg, home, e, c)
    ensures var e' := Step(cfg, e, c).engine;
            && Inv(cfg, home, e', []) && Has(cfg, home, e', [], id, s')
            && Kept(e', id, s', !Relogs(c, id) && (Drops(cfg, home, e, c, id) || dropped))
  {
    hide Inv, Has, Step, Compacts, Kept, Logged, Offered, IdleBatch, ShouldCompact, IsCold, Allowed, Project, FireAll,
      Accepts, Logs;
    var s1 := StepSound(cfg, home, e, c, id, s);
    var o := Step(cfg, e, c);
    s' := FireAll(s1, Project(o.events, id));
    CompactsIff(cfg, e, c);
    StatusCold(cfg, home, e, id, s);
    NotReturning(cfg, home, e, id, s);
    OfferedLogged(e.disk, id, c.now);
    if Compacts(cfg, e, c) {
      CompactsTo(cfg, home, e, c);
      NoEvents(home(id), s, c.now);
      NoneOf(id);
      KeptCompact(cfg, home, e, c, id, s);
      ColdIfDropped(e, id, s, dropped);
    } else {
      StepLogs(cfg, e, c);
      if c.op.PushOp? {
        KeptPush(cfg, home, e, c, id, s, dropped);
      } else if c.op.PushBatchOp? {
        KeptBatch(cfg, home, e, c, id, s, dropped);
      } else {
        StoresNothing(cfg, e, c);
        LogsNoPush(cfg, e, c, id);
        KeptOn(e, o.engine, Logs(cfg, e, c), home(id), id, s, s1, o.events, c.now, dropped);
      }
    }
  }

  lemma NoneOf(id: Id)
    ensures Project([], id) == []
  {
  }

  lemma ColdIfDropped(e: Engine, id: Id, s: Status, dropped: bool)
    requires Kept(e, id, s, dropped)
    ensures dropped ==> s.Cold?
  {
  }

  lemma StoresNothing(cfg: Config, e: Engine, c: Call)
    requires c.op.PollOp? || c.op.AckOp? || c.op.AckBatchOp?
    ensures NoneStored(Step(cfg, e, c).events)
  {
    hide Poll, AckItems;
    match c.op
    case PollOp(_, _, _, _, _) => PollStoresNothing(cfg, e, c);
    case AckOp(_, _) =>
    case AckBatchOp(q, acks, _) => AcksStoreNothing(cfg, e, q, acks);
  }

  lemma LogsNoPush(cfg: Config, e: Engine, c: Call, id: Id)
    requires c.op.PollOp? || c.op.AckOp? || c.op.AckBatchOp?
    ensures !Logged(Logs(cfg, e, c), id)
  {
    if c.op.AckBatchOp? {
      AcceptedUnlogged(cfg, e, c.op.queue, c.op.acks, id);
    }
  }

  /** A call loses a cold message that is on disk if and only if it is an idle batch at the end of a full
      segment. */
  lemma LosesIff(cfg: Config, home: Homes, e: Engine, c: Call, id: Id)
    requires IsCold(cfg, home, e, id) && Logged(e.disk, id) && Allowed(cfg, home, e, c)
    ensures !Present(Step(cfg, e, c).engine, id) <==> IdleBatch(cfg, e, c) && ShouldCompact(cfg, e)
  {
    hide Step, Logged, IdleBatch, ShouldCompact, Allowed, Logs, Compacts;
    CompactsIff(cfg, e, c);
    if Compacts(cfg, e, c) {
      CompactsTo(cfg, home, e, c);
      SurvivorLogged(cfg, e, c.op.survivors, id);
      assert HotSomewhere(Step(cfg, e, c).engine, id) <==> HotSomewhere(e, id);
    } else {
      StepLogs(cfg, e, c);
      LoggedMore(e.disk, Logs(cfg, e, c), id);
    }
  }

  // ---------------------------------------------------------------- whole runs

  lemma {:induction false} RunKept(cfg: Config, home: Homes, calls: seq<Call>, id: Id) returns (s: Status)
    requires AllowedRun(cfg, home, calls)
    ensures var e := Run(cfg, calls).engine;
            && Inv(cfg, home, e, []) && Has(cfg, home, e, [], id, s)
            && Kept(e, id, s, Dropped(cfg, home, calls, id))
  {
    hide Inv, Has, Step, Allowed, Logged, Drops, Relogs;
    if |calls| == 0 {
      NewInv(cfg, home);
      s := Unseen;
    } else {
      var front := calls[..|calls| - 1];
      s := RunKept(cfg, home, front, id);
      s := KeptStep(cfg, home, Run(cfg, front).engine, calls[|calls| - 1], id, s, Dropped(cfg, home, front, id));
    }
  }

  /** For every run, every delay and every clock: a message whose push was accepted is in RAM, on disk
      or acknowledged if and only if it was not dropped, that is, unless an idle batch compacted the
      log while it was cold and no single push of it followed. */
  lemma KeptIff(cfg: Config, home: Homes, calls: seq<Call>, k: nat)
    requires AllowedRun(cfg, home, calls)
    requires k < |RunEvents(cfg, calls)| && RunEvents(cfg, calls)[k].Stored?
    ensures var e, events := Run(cfg, calls).engine, RunEvents(cfg, calls);
            var id := events[k].id;
            Present(e, id) || HasAck(events, id) <==> !Dropped(cfg, home, calls, id)
  {
    hide AllowedRun, Run, Inv, Has, Logged, HotSomewhere, HasAck, Dropped, Lives;
    var e, events := Run(cfg, calls).engine, RunEvents(cfg, calls);
    var id := events[k].id;
    var s := RunKept(cfg, home, calls, id);
    StatusHot(cfg, home, e, id, s);
    AckedIff(cfg, home, calls, k, s);
    NotReturning(cfg, home, e, id, s);
  }

  /** With a clock that does not step back and no delay above 300 s nothing is ever dropped. */
  lemma NeverDropped(cfg: Config, home: Homes, calls: seq<Call>, id: Id)
    requires AllowedRun(cfg, home, calls) && MonotoneClock(calls)
    requires forall k :: 0 <= k < |calls| ==> ShortDelays(calls[k])
    ensures !Dropped(cfg, home, calls, id)
  {
    hide AllowedRun, Run, Inv, Has, Dropped, ShortDelays, MonotoneClock;
    var e := Run(cfg, calls).engine;
    var s := RunKept(cfg, home, calls, id);
    var t := RunSafe(cfg, home, calls, id);
    if s.Cold? {
      ColdOnly(cfg, home, e, id, t);
    }
  }

  // ---------------------------------------------------------------- compaction

  /** The record is that of a message in RAM, under a queue of its family. */
  ghost predicate OfHot(cfg: Config, home: Homes, e: Engine, r: WalRecord) {
    var m := ShardFor(cfg, e, r.queue).messages;
    && r.id in m && r == WalRecord.Push(r.id, m[r.id].queue, m[r.id].visibleAt, m[r.id].payload)
    && InFamily(home(r.id), r.queue)
  }

  lemma SurvivorOfHot(cfg: Config, home: Homes, e: Engine, survivors: seq<WalRecord>, r: WalRecord)
    requires Inv(cfg, home, e, []) && IsSurvivorList(e, survivors) && r in survivors
    ensures OfHot(cfg, home, e, r)
  {
    hide OnePlace, HotCount;
    assert SurvivesIn(e, r);
    var i :| 0 <= i < NUM_SHARDS && r.id in e.shards[i].messages && r == RecordOf(r.id, e.shards[i].messages[r.id]);
    assert InOwnShard(cfg, i, e.shards[i]);
    assert InRam(cfg, e, Spot(r.id, r.queue));
    assert SpotOk(cfg, home, BookOf(cfg, e, []), r.id, r.queue);
  }

  /** When a batch compacts the log, whatever the delays and the clock: the survivors hold one record
      of an accepted, unacknowledged message if and only if it is not cold, and every record they hold
      is the queue, payload and due time of a message in RAM. */
  lemma SurvivorsCoverIff(cfg: Config, home: Homes, calls: seq<Call>, k: nat)
    requires AllowedRun(cfg, home, calls) && 0 < |calls|
    requires Compacts(cfg, Run(cfg, calls[..|calls| - 1]).engine, calls[|calls| - 1])
    requires k < |RunEvents(cfg, calls)| && RunEvents(cfg, calls)[k].Stored?
    requires !HasAck(RunEvents(cfg, calls), RunEvents(cfg, calls)[k].id)
    ensures var e, id := Run(cfg, calls).engine, RunEvents(cfg, calls)[k].id;
            && (Logged(e.disk, id) <==> !IsCold(cfg, home, e, id))
            && (forall r :: r in e.disk ==> OfHot(cfg, home, e, r))
            && (forall r, r' :: r in e.disk && r' in e.disk && r.id == r'.id ==> r == r')
  {
    hide HasAck, Compacts, Allowed, Step, Inv, Has, Logged, IsCold, OfHot, HotSomewhere, ShouldCompact;
    var e0, c, e := Run(cfg, calls[..|calls| - 1]).engine, calls[|calls| - 1], Run(cfg, calls).engine;
    var id := RunEvents(cfg, calls)[k].id;
    CompactsTo(cfg, home, e0, c);
    SurvivorsStay(e0, e, c.op.survivors);
    var s := RunKept(cfg, home, calls, id);
    AckedIff(cfg, home, calls, k, s);
    StatusCold(cfg, home, e, id, s);
    StatusHot(cfg, home, e, id, s);
    NotReturning(cfg, home, e, id, s);
    SurvivorLogged(cfg, e, e.disk, id);
    forall r | r in e.disk
      ensures OfHot(cfg, home, e, r)
    {
      SurvivorOfHot(cfg, home, e, e.disk, r);
    }
    forall r, r' | r in e.disk && r' in e.disk && r.id == r'.id
      ensures r == r'
    {
      OneSurvivor(cfg, home, e, r, r');
    }
  }

  lemma OneSurvivor(cfg: Config, home: Homes, e: Engine, r: WalRecord, r': WalRecord)
    requires Inv(cfg, home, e, []) && OfHot(cfg, home, e, r) && OfHot(cfg, home, e, r') && r.id == r'.id
    ensures r == r'
  {
    hide Inv;
    HotOnce(cfg, home, e, [], ShardIdx(cfg, r.queue), ShardIdx(cfg, r'.queue), r.id);
  }

  /** With a clock that does not step back and no delay above 300 s nothing is cold then, so the survivors
      hold every accepted, unacknowledged message. */
  lemma SurvivorsCoverAll(cfg: Config, home: Homes, calls: seq<Call>, k: nat)
    requires AllowedRun(cfg, home, calls) && MonotoneClock(calls) && 0 < |calls|
    requires forall k :: 0 <= k < |calls| ==> ShortDelays(calls[k])
    requires Compacts(cfg, Run(cfg, calls[..|calls| - 1]).engine, calls[|calls| - 1])
    requires k < |RunEvents(cfg, calls)| && RunEvents(cfg, calls)[k].Stored?
    requires !HasAck(RunEvents(cfg, calls), RunEvents(cfg, calls)[k].id)
    ensures var e, id := Run(cfg, calls).engine, RunEvents(cfg, calls)[k].id;
            !IsCold(cfg, home, e, id) && exists r :: r in e.disk && r.id == id && OfHot(cfg, home, e, r)
  {
    hide HasAck, Compacts, AllowedRun, Run, Inv, Has, IsCold, OfHot, ShortDelays, MonotoneClock, Dropped;
    var e, id := Run(cfg, calls).engine, RunEvents(cfg, calls)[k].id;
    SurvivorsCoverIff(cfg, home, calls, k);
    var s := RunKept(cfg, home, calls, id);
    NeverDropped(cfg, home, calls, id);
    StatusCold(cfg, home, e, id, s);
    var j :| 0 <= j < |e.disk| && e.disk[j].Push? && e.disk[j].id == id;
    assert OfHot(cfg, home, e, e.disk[j]);
  }
}
